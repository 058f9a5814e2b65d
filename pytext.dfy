/**
 * Python's built-in string operations as the bot and its settings window use them:
 * `str.split()`, `str.split(",")`, `str.strip()`, `str.lower()`, `sep.join(...)`,
 * substring `in`, `int(text)` and `str(n)`.
 */
module PyText {
  import opened Wrappers

  /** `c.isspace()`: the characters `split()` and `strip()` treat as whitespace. */
  predicate IsSpace(c: char) {
    || c == ' ' || ('\t' <= c <= '\r') || ('\U{1c}' <= c <= '\U{1f}')
    || c == '\U{85}' || c == '\U{a0}' || c == '\U{1680}' || ('\U{2000}' <= c <= '\U{200a}')
    || c == '\U{2028}' || c == '\U{2029}' || c == '\U{202f}' || c == '\U{205f}' || c == '\U{3000}'
  }

  predicate NoSpace(s: string) {
    forall i :: 0 <= i < |s| ==> !IsSpace(s[i])
  }

  predicate IsDigit(c: char) {
    '0' <= c <= '9'
  }

  // ---------------------------------------------------------------------------
  // Prefixes, suffixes and substrings

  predicate StartsWith(s: string, prefix: string) {
    |prefix| <= |s| && s[..|prefix|] == prefix
  }

  predicate EndsWith(s: string, suffix: string) {
    |suffix| <= |s| && s[|s| - |suffix|..] == suffix
  }

  /** `needle in hay` for two strings: `needle` occurs somewhere in `hay` (the empty string occurs everywhere). */
  predicate Contains(hay: string, needle: string)
    ensures Contains(hay, needle) ==> |needle| <= |hay|
    ensures needle == [] ==> Contains(hay, needle)
    ensures |needle| == |hay| ==> (Contains(hay, needle) <==> hay == needle)
  {
    assert needle == [] ==> OccursAt(hay, needle, 0);
    assert hay == needle ==> OccursAt(hay, needle, 0);
    exists i | 0 <= i <= |hay| - |needle| :: OccursAt(hay, needle, i)
  }

  predicate OccursAt(hay: string, needle: string, i: nat) {
    i + |needle| <= |hay| && hay[i..i + |needle|] == needle
  }

  // ---------------------------------------------------------------------------
  // Case

  /** `c.lower()` for ASCII letters; every other character is kept. */
  function LowerChar(c: char): char {
    if 'A' <= c <= 'Z' then (c as int + 32) as char else c
  }

  /** `s.lower()`. */
  function Lower(s: string): (r: string)
    ensures |r| == |s|
    ensures forall i :: 0 <= i < |s| ==> r[i] == LowerChar(s[i])
  {
    seq(|s|, i requires 0 <= i < |s| => LowerChar(s[i]))
  }

  predicate IsUpper(c: char) {
    'A' <= c <= 'Z'
  }

  /** A lower-cased string holds no upper-case ASCII letter. */
  lemma LowerHasNoUpper(s: string)
    ensures forall i :: 0 <= i < |Lower(s)| ==> !IsUpper(Lower(s)[i])
  {
  }

  // ---------------------------------------------------------------------------
  // Splitting on whitespace: `s.split()`

  /** Length of the leading run of non-whitespace characters of `s`. */
  function WordLength(s: string): (n: nat)
    ensures n <= |s|
    ensures forall i :: 0 <= i < n ==> !IsSpace(s[i])
    ensures n < |s| ==> IsSpace(s[n])
  {
    if s == [] || IsSpace(s[0]) then 0 else 1 + WordLength(s[1..])
  }

  /**
   * `s.split()`: the maximal runs of non-whitespace characters of `s`, in order;
   * leading, trailing and repeated whitespace produce no empty tokens.
   */
  function SplitWs(s: string): (r: seq<string>)
    ensures forall k :: 0 <= k < |r| ==> r[k] != [] && NoSpace(r[k])
    decreases |s|
  {
    if s == [] then []
    else if IsSpace(s[0]) then SplitWs(s[1..])
    else
      var n := WordLength(s);
      [s[..n]] + SplitWs(s[n..])
  }

  /** `sep.join(parts)`. */
  function Join(sep: string, parts: seq<string>): (r: string)
    ensures |parts| == 0 ==> r == []
    ensures |parts| > 0 && parts[0] != [] ==> r != []
  {
    if |parts| == 0 then ""
    else if |parts| == 1 then parts[0]
    else parts[0] + sep + Join(sep, parts[1..])
  }

  /** A join begins with the first part and ends with the last. */
  lemma {:induction false} JoinEnds(sep: string, parts: seq<string>)
    requires |parts| > 0
    ensures StartsWith(Join(sep, parts), parts[0])
    ensures EndsWith(Join(sep, parts), parts[|parts| - 1])
  {
    if |parts| > 1 {
      var rest := Join(sep, parts[1..]);
      assert Join(sep, parts) == parts[0] + (sep + rest);
      JoinEnds(sep, parts[1..]);
      assert parts[|parts| - 1] == parts[1..][|parts[1..]| - 1];
      ConcatEnds(parts[0], sep, rest, parts[|parts| - 1]);
    }
  }

  /** Every part occurs in the join, so the join is at least as long as each part. */
  lemma {:induction false} JoinContainsParts(sep: string, parts: seq<string>)
    ensures forall k :: 0 <= k < |parts| ==> Contains(Join(sep, parts), parts[k])
  {
    if |parts| == 1 {
      assert OccursAt(Join(sep, parts), parts[0], 0);
    } else if |parts| > 1 {
      var rest := Join(sep, parts[1..]);
      var r := Join(sep, parts);
      assert r == (parts[0] + sep) + rest;
      JoinContainsParts(sep, parts[1..]);
      forall k | 0 <= k < |parts|
        ensures Contains(r, parts[k])
      {
        if k == 0 {
          assert r[..|parts[0]|] == parts[0];
          assert OccursAt(r, parts[0], 0);
        } else {
          assert parts[k] == parts[1..][k - 1];
          var i :| 0 <= i <= |rest| - |parts[k]| && OccursAt(rest, parts[k], i);
          OccursAfterPrefix(parts[0] + sep, rest, parts[k], i);
        }
      }
    }
  }

  lemma OccursAfterPrefix(x: string, y: string, needle: string, i: nat)
    requires OccursAt(y, needle, i)
    ensures OccursAt(x + y, needle, |x| + i)
  {
    assert (x + y)[|x| + i..|x| + i + |needle|] == y[i..i + |needle|];
  }

  lemma ConcatEnds(x: string, sep: string, y: string, z: string)
    requires EndsWith(y, z)
    ensures StartsWith(x + (sep + y), x) && EndsWith(x + (sep + y), z)
  {
    var w := x + (sep + y);
    assert w[..|x|] == x;
    assert w[|w| - |z|..] == y[|y| - |z|..];
  }

  lemma {:induction false} SplitWsOfSpacePrefix(sp: string, s: string)
    requires forall i :: 0 <= i < |sp| ==> IsSpace(sp[i])
    ensures SplitWs(sp + s) == SplitWs(s)
    decreases |sp|
  {
    if sp != [] {
      assert (sp + s)[0] == sp[0];
      assert (sp + s)[1..] == sp[1..] + s;
      SplitWsOfSpacePrefix(sp[1..], s);
    } else {
      assert sp + s == s;
    }
  }

  lemma {:induction false} SplitWsOfWord(w: string, s: string)
    requires w != [] && NoSpace(w)
    requires s == [] || IsSpace(s[0])
    ensures SplitWs(w + s) == [w] + SplitWs(s)
  {
    WordLengthOfWord(w, s);
    assert (w + s)[..|w|] == w;
    assert (w + s)[|w|..] == s;
  }

  lemma {:induction false} WordLengthOfWord(w: string, s: string)
    requires NoSpace(w)
    requires s == [] || IsSpace(s[0])
    ensures WordLength(w + s) == |w|
    decreases |w|
  {
    if w != [] {
      assert (w + s)[1..] == w[1..] + s;
      WordLengthOfWord(w[1..], s);
    }
  }

  /**
   * Splitting undoes joining with single spaces: tokens that are non-empty and
   * hold no whitespace come back unchanged from `" ".join(tokens).split()`.
   */
  lemma {:induction false} SplitWsJoin(tokens: seq<string>)
    requires forall k :: 0 <= k < |tokens| ==> tokens[k] != [] && NoSpace(tokens[k])
    ensures SplitWs(Join(" ", tokens)) == tokens
  {
    if |tokens| == 1 {
      SplitWsOfWord(tokens[0], "");
      assert tokens[0] + "" == tokens[0];
    } else if |tokens| > 1 {
      var rest := Join(" ", tokens[1..]);
      assert Join(" ", tokens) == tokens[0] + (" " + rest);
      SplitWsOfWord(tokens[0], " " + rest);
      SplitWsOfSpacePrefix(" ", rest);
      SplitWsJoin(tokens[1..]);
    }
  }

  // ---------------------------------------------------------------------------
  // Splitting on a separator: `s.split(",")`

  /**
   * `s.split(sep)` for a one-character separator: the pieces between separators,
   * empty pieces included, so there is always one more piece than separators.
   */
  function SplitOn(s: string, sep: char): (r: seq<string>)
    ensures |r| >= 1
    ensures forall k :: 0 <= k < |r| ==> sep !in r[k]
  {
    if s == [] then [""]
    else
      var rest := SplitOn(s[1..], sep);
      if s[0] == sep then [""] + rest else [[s[0]] + rest[0]] + rest[1..]
  }

  /** Python's `"".split(",")` is `[""]`, not `[]`. */
  lemma SplitOnEmpty(sep: char)
    ensures SplitOn("", sep) == [""]
  {
  }

  lemma {:induction false} SplitOnNoSep(a: string, sep: char)
    requires sep !in a
    ensures SplitOn(a, sep) == [a]
  {
    if a != [] {
      SplitOnNoSep(a[1..], sep);
      assert [a[0]] + a[1..] == a;
    }
  }

  lemma {:induction false} SplitOnAtSep(a: string, sep: char, b: string)
    requires sep !in a
    ensures SplitOn(a + [sep] + b, sep) == [a] + SplitOn(b, sep)
  {
    if a == [] {
      assert a + [sep] + b == [sep] + b;
      assert ([sep] + b)[1..] == b;
    } else {
      assert (a + [sep] + b)[1..] == a[1..] + [sep] + b;
      SplitOnAtSep(a[1..], sep, b);
      assert [a[0]] + a[1..] == a;
    }
  }

  /**
   * Splitting a `", "`-join on `","`: every piece comes back, all but the first
   * with the single space the separator left in front of it.
   */
  lemma {:induction false} SplitOnCommaJoin(parts: seq<string>)
    requires |parts| >= 1
    requires forall k :: 0 <= k < |parts| ==> ',' !in parts[k]
    ensures |SplitOn(Join(", ", parts), ',')| == |parts|
    ensures SplitOn(Join(", ", parts), ',')[0] == parts[0]
    ensures forall k :: 1 <= k < |parts| ==> SplitOn(Join(", ", parts), ',')[k] == " " + parts[k]
  {
    if |parts| == 1 {
      SplitOnNoSep(parts[0], ',');
    } else {
      var rest := Join(", ", parts[1..]);
      assert Join(", ", parts) == parts[0] + [','] + (" " + rest);
      SplitOnAtSep(parts[0], ',', " " + rest);
      SplitOnCommaJoin(parts[1..]);
      var tail := SplitOn(rest, ',');
      assert SplitOn(" " + rest, ',') == [" " + tail[0]] + tail[1..] by {
        assert (" " + rest)[1..] == rest;
      }
    }
  }

  // ---------------------------------------------------------------------------
  // Stripping: `s.strip()`

  function StripLeading(s: string): (r: string)
    ensures r == [] || !IsSpace(r[0])
  {
    if s != [] && IsSpace(s[0]) then StripLeading(s[1..]) else s
  }

  function StripTrailing(s: string): (r: string)
    ensures r == [] || !IsSpace(r[|r| - 1])
  {
    if s != [] && IsSpace(s[|s| - 1]) then StripTrailing(s[..|s| - 1]) else s
  }

  /** `lstrip()` takes characters off the front only: what is left is a suffix. */
  lemma {:induction false} StripLeadingIsSuffix(s: string)
    ensures |StripLeading(s)| <= |s| && StripLeading(s) == s[|s| - |StripLeading(s)|..]
  {
    if s != [] && IsSpace(s[0]) {
      StripLeadingIsSuffix(s[1..]);
    }
  }

  /** `rstrip()` takes characters off the back only: what is left is a prefix. */
  lemma {:induction false} StripTrailingIsPrefix(s: string)
    ensures |StripTrailing(s)| <= |s| && StripTrailing(s) == s[..|StripTrailing(s)|]
  {
    if s != [] && IsSpace(s[|s| - 1]) {
      StripTrailingIsPrefix(s[..|s| - 1]);
    }
  }

  /** What `lstrip()` takes off is whitespace. */
  lemma {:induction false} StripLeadingDropsSpace(s: string)
    ensures |StripLeading(s)| <= |s|
    ensures AllSpace(s[..|s| - |StripLeading(s)|])
  {
    if s != [] && IsSpace(s[0]) {
      StripLeadingDropsSpace(s[1..]);
      var n := |s| - |StripLeading(s)|;
      forall i | 0 <= i < n
        ensures IsSpace(s[..n][i])
      {
        if i > 0 {
          assert s[..n][i] == s[1..][..n - 1][i - 1];
        }
      }
    }
  }

  /** What `rstrip()` takes off is whitespace. */
  lemma {:induction false} StripTrailingDropsSpace(s: string)
    ensures |StripTrailing(s)| <= |s|
    ensures AllSpace(s[|StripTrailing(s)|..])
  {
    if s != [] && IsSpace(s[|s| - 1]) {
      var init := s[..|s| - 1];
      StripTrailingDropsSpace(init);
      var n := |StripTrailing(s)|;
      forall i | 0 <= i < |s| - n
        ensures IsSpace(s[n..][i])
      {
        if i < |s| - 1 - n {
          assert s[n..][i] == init[n..][i];
        }
      }
    }
  }

  /** `s.strip()`: `s` without its leading and trailing whitespace. */
  function Strip(s: string): (r: string)
    ensures |r| <= |s|
    ensures IsStripped(r)
  {
    var l := StripLeading(s);
    StripLeadingIsSuffix(s);
    StripTrailingIsPrefix(l);
    var r := StripTrailing(l);
    assert r != [] ==> r[0] == l[0];
    r
  }

  /** A string already free of surrounding whitespace is its own strip. */
  predicate IsStripped(s: string) {
    s == [] || (!IsSpace(s[0]) && !IsSpace(s[|s| - 1]))
  }

  lemma StripOfStripped(s: string)
    requires IsStripped(s)
    ensures Strip(s) == s
  {
  }

  /** Stripping takes off what a `", "` separator leaves in front of a piece. */
  lemma StripAfterSpace(s: string)
    requires IsStripped(s)
    ensures Strip(" " + s) == s
  {
    var t := " " + s;
    assert t != [] && IsSpace(t[0]) && t[1..] == s;
    assert StripLeading(t) == StripLeading(s);
    assert StripLeading(s) == s;
    assert StripTrailing(s) == s;
  }

  /** A prefix `t` of a suffix `l` of `s` splits `s` into what comes before `l`, `t`, and what follows `t` in `l`. */
  lemma SuffixThenPrefix(s: string, l: string, t: string)
    requires |l| <= |s| && l == s[|s| - |l|..]
    requires |t| <= |l| && t == l[..|t|]
    ensures s == s[..|s| - |l|] + t + l[|t|..]
  {
    assert s == s[..|s| - |l|] + l;
    assert l == t + l[|t|..];
  }

  predicate AllSpace(s: string) {
    forall i :: 0 <= i < |s| ==> IsSpace(s[i])
  }

  /** `strip()` takes off whitespace only: the input is some whitespace, the result, and some whitespace. */
  lemma StripRemovesOnlySpace(s: string)
    ensures exists a, b :: AllSpace(a) && AllSpace(b) && s == a + Strip(s) + b
  {
    var l := StripLeading(s);
    StripLeadingIsSuffix(s);
    StripLeadingDropsSpace(s);
    var t := StripTrailing(l);
    StripTrailingIsPrefix(l);
    StripTrailingDropsSpace(l);
    var a := s[..|s| - |l|];
    var b := l[|t|..];
    assert Strip(s) == t;
    SuffixThenPrefix(s, l, t);
  }

  // ---------------------------------------------------------------------------
  // Integers: `int(text)` and `str(n)`

  function DigitValue(c: char): nat
    requires IsDigit(c)
  {
    c as int - '0' as int
  }

  function DigitChar(d: nat): (c: char)
    requires d < 10
    ensures IsDigit(c) && DigitValue(c) == d
  {
    ('0' as int + d) as char
  }

  /**
   * The body of a base-10 literal as `int()` accepts it: digits, with single
   * underscores allowed between two digits.
   */
  predicate IsDigitGroup(s: string) {
    && s != []
    && IsDigit(s[0])
    && DigitsOrUnderscores(s)
    && forall i :: 0 <= i < |s| && s[i] == '_' ==> 0 < i < |s| - 1 && IsDigit(s[i + 1])
  }

  predicate DigitsOrUnderscores(s: string) {
    forall i :: 0 <= i < |s| ==> IsDigit(s[i]) || s[i] == '_'
  }

  /** The value of a digit string in base 10, underscores skipped. */
  function GroupValue(s: string): nat
    requires DigitsOrUnderscores(s)
  {
    if s == [] then 0
    else if s[|s| - 1] == '_' then GroupValue(s[..|s| - 1])
    else 10 * GroupValue(s[..|s| - 1]) + DigitValue(s[|s| - 1])
  }

  /**
   * `int(text)` with base 10: surrounding whitespace is ignored, then an optional
   * sign and a digit group. `None` stands for the `ValueError` Python raises.
   */
  function ParseInt(text: string): (r: Option<int>)
    ensures r.Some? ==> Strip(text) != [] && IsDigit(Strip(text)[|Strip(text)| - 1])
    ensures r.Some? && r.value < 0 ==> Strip(text)[0] == '-'
  {
    var s := Strip(text);
    if s != [] && (s[0] == '-' || s[0] == '+') then
      if IsDigitGroup(s[1..]) then
        var v: int := GroupValue(s[1..]);
        Some(if s[0] == '-' then -v else v)
      else None
    else if IsDigitGroup(s) then
      Some(GroupValue(s))
    else None
  }

  /** `str(n)` for a natural number: its decimal digits, no leading zeros. */
  function NatToString(n: nat): (s: string)
    ensures s != []
    ensures forall i :: 0 <= i < |s| ==> IsDigit(s[i])
  {
    if n < 10 then [DigitChar(n)] else NatToString(n / 10) + [DigitChar(n % 10)]
  }

  /** `str(n)` for an integer: a minus sign for negative numbers, then the digits. */
  function IntToString(n: int): (r: string)
    ensures r != [] && (r[0] == '-' <==> n < 0)
    ensures forall i :: 1 <= i < |r| ==> IsDigit(r[i])
  {
    if n < 0 then "-" + NatToString(-n) else NatToString(n)
  }

  lemma {:induction false} NatToStringValue(n: nat)
    ensures IsDigitGroup(NatToString(n))
    ensures GroupValue(NatToString(n)) == n
  {
    var s := NatToString(n);
    if n >= 10 {
      NatToStringValue(n / 10);
      assert s[..|s| - 1] == NatToString(n / 10);
    }
  }

  /** `int()` reads back the digits `str()` prints for a natural number. */
  lemma ParseIntOfDigits(m: nat)
    ensures ParseInt(NatToString(m)) == Some(m)
  {
    var d := NatToString(m);
    NatToStringValue(m);
    assert IsDigit(d[0]) && IsDigit(d[|d| - 1]);
    StripOfStripped(d);
  }

  /** `int()` reads back a minus sign followed by the digits of `m` as `-m`. */
  lemma ParseIntOfNegatedDigits(m: nat)
    ensures ParseInt("-" + NatToString(m)) == Some(-(m as int))
  {
    var d := NatToString(m);
    var s := "-" + d;
    NatToStringValue(m);
    assert IsDigit(d[|d| - 1]) && s[|s| - 1] == d[|d| - 1] && s[1..] == d;
    StripOfStripped(s);
    assert Strip(s) == s && s[0] == '-';
    assert IsDigitGroup(s[1..]) && GroupValue(s[1..]) == m;
  }

  /** `int(str(n)) == n`: printing an integer and parsing it back gives the same integer. */
  lemma ParseIntToString(n: int)
    ensures ParseInt(IntToString(n)) == Some(n)
  {
    if n < 0 {
      ParseIntOfNegatedDigits(-n);
    } else {
      ParseIntOfDigits(n);
    }
  }

  /** `str(n)` holds no comma and no surrounding whitespace, so it survives a `", "`-join and `strip()`. */
  lemma IntToStringShape(n: int)
    ensures ',' !in IntToString(n)
    ensures IsStripped(IntToString(n))
  {
    var s := IntToString(n);
    var m := if n < 0 then -n else n;
    assert forall i :: 0 <= i < |NatToString(m)| ==> IsDigit(NatToString(m)[i]);
    if n < 0 {
      assert forall i :: 1 <= i < |s| ==> s[i] == NatToString(m)[i - 1];
    }
  }
}
