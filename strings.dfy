/** PHP string semantics the plugin relies on: truthiness, decimal
    rendering of integers, `strpos`/`stripos`, `explode` and `trim`.
    Strings are sequences of Unicode code points, which is what the
    multibyte functions of PHP count. */
module Strings {

  /** A string is falsy in PHP when it is "" or "0"; `?:`, `!empty()` and
      `!$x` all test this. */
  predicate Truthy(s: string) {
    s != "" && s != "0"
  }

  /** The truthy strings are those of two or more characters and the
      one-character strings other than "0". */
  lemma TruthyByLength(s: string)
    ensures Truthy(s) <==> |s| > 1 || (|s| == 1 && s[0] != '0')
  {
    if |s| == 1 && s[0] == '0' {
      assert s == "0";
    }
  }

  // ---------------------------------------------------------------------
  // Decimal rendering, as string interpolation of an integer does

  predicate IsDigit(c: char) {
    '0' <= c <= '9'
  }

  predicate AllDigits(s: string) {
    forall i :: 0 <= i < |s| ==> IsDigit(s[i])
  }

  function DigitChar(d: nat): (c: char)
    requires d < 10
    ensures IsDigit(c) && c as int - '0' as int == d
  {
    ('0' as int + d) as char
  }

  /** The decimal digits of `n`, most significant first. */
  function NatToString(n: nat): (s: string)
    ensures |s| >= 1 && AllDigits(s)
  {
    if n < 10 then [DigitChar(n)] else NatToString(n / 10) + [DigitChar(n % 10)]
  }

  /** `"{$i}"` for an integer `i`. */
  function IntToString(i: int): string {
    if i < 0 then "-" + NatToString(-i) else NatToString(i)
  }

  /** The number a string of decimal digits denotes; the inverse of NatToString. */
  function DigitsValue(s: string): nat
    requires AllDigits(s)
  {
    if s == [] then 0 else DigitsValue(s[..|s| - 1]) * 10 + (s[|s| - 1] as int - '0' as int)
  }

  lemma {:induction false} DigitsValueOfNatToString(n: nat)
    ensures DigitsValue(NatToString(n)) == n
  {
    if n >= 10 {
      var s := NatToString(n / 10);
      DigitsValueOfNatToString(n / 10);
      assert (s + [DigitChar(n % 10)])[..|s|] == s;
    }
  }

  lemma NatToStringInjective(a: nat, b: nat)
    requires NatToString(a) == NatToString(b)
    ensures a == b
  {
    DigitsValueOfNatToString(a);
    DigitsValueOfNatToString(b);
  }

  /** Only negative numbers are rendered with a leading '-'. */
  lemma IntToStringSign(i: int)
    ensures |IntToString(i)| >= 1
    ensures IntToString(i)[0] == '-' <==> i < 0
  {
    if i >= 0 {
      assert IsDigit(NatToString(i)[0]);
    }
  }

  lemma IntToStringInjective(a: int, b: int)
    requires IntToString(a) == IntToString(b)
    ensures a == b
  {
    IntToStringSign(a);
    IntToStringSign(b);
    var s := IntToString(a);
    if a < 0 && b < 0 {
      assert NatToString(-a) == s[1..] == NatToString(-b);
      NatToStringInjective(-a, -b);
    } else if a >= 0 && b >= 0 {
      NatToStringInjective(a, b);
    }
  }

  // ---------------------------------------------------------------------
  // Substring search: strpos and stripos

  /** `needle` occurs in `hay` starting at position `i`. */
  predicate OccursAt(hay: string, needle: string, i: nat) {
    i + |needle| <= |hay| && hay[i..i + |needle|] == needle
  }

  lemma OccursAtShift(hay: string, needle: string, i: nat)
    requires hay != []
    ensures OccursAt(hay[1..], needle, i) <==> OccursAt(hay, needle, i + 1)
  {
    if i + 1 + |needle| <= |hay| {
      assert hay[1..][i..i + |needle|] == hay[i + 1..i + 1 + |needle|];
    }
  }

  /** `strpos($hay, $needle) !== false`. An empty needle occurs at 0, as in PHP 8. */
  function Contains(hay: string, needle: string): (b: bool)
    ensures b <==> exists i: nat :: OccursAt(hay, needle, i)
    decreases |hay|
  {
    if needle <= hay then
      assert OccursAt(hay, needle, 0);
      true
    else if hay == [] then
      false
    else
      var rest := Contains(hay[1..], needle);
      assert rest ==> exists i: nat :: OccursAt(hay, needle, i) by {
        if rest {
          var i: nat :| OccursAt(hay[1..], needle, i);
          OccursAtShift(hay, needle, i);
        }
      }
      assert (exists i: nat :: OccursAt(hay, needle, i)) ==> rest by {
        if exists i: nat :: OccursAt(hay, needle, i) {
          var i: nat :| OccursAt(hay, needle, i);
          assert i != 0;
          OccursAtShift(hay, needle, i - 1);
        }
      }
      rest
  }

  /** ASCII lower-casing, as PHP 8 does for the case-insensitive functions. */
  function LowerChar(c: char): char {
    if 'A' <= c <= 'Z' then (c as int + 32) as char else c
  }

  function Lower(s: string): (r: string)
    ensures |r| == |s|
  {
    seq(|s|, i requires 0 <= i < |s| => LowerChar(s[i]))
  }

  /** `stripos($hay, $needle) !== false`: the needle occurs in the hay once
      both are lower-cased; an empty needle always occurs. */
  predicate ContainsCaseless(hay: string, needle: string): (b: bool)
    ensures b <==> exists i: nat :: OccursAt(Lower(hay), Lower(needle), i)
    ensures needle == [] ==> b
  {
    Contains(Lower(hay), Lower(needle))
  }

  // ---------------------------------------------------------------------
  // Positions, explode and trim

  /** The first position of `c` in `s`, or |s| when there is none. */
  function IndexOf(s: string, c: char): (i: nat)
    ensures i <= |s|
    ensures i < |s| ==> s[i] == c
    ensures c !in s[..i]
  {
    if s == [] then 0
    else if s[0] == c then 0
    else
      var k := IndexOf(s[1..], c);
      assert s[..k + 1] == [s[0]] + s[1..][..k];
      k + 1
  }

  /** The last position of `c` in `s`, or |s| when there is none. */
  function LastIndexOf(s: string, c: char): (i: nat)
    ensures i <= |s|
    ensures i < |s| ==> s[i] == c && c !in s[i + 1..]
    ensures i == |s| ==> c !in s
  {
    if s == [] then 0
    else if s[|s| - 1] == c then |s| - 1
    else
      var init := s[..|s| - 1];
      var k := LastIndexOf(init, c);
      assert s == init + [s[|s| - 1]];
      if k == |init| then |s|
      else
        assert s[k + 1..] == init[k + 1..] + [s[|s| - 1]];
        k
  }

  /** `explode($sep, $s)` for a one-character separator: never empty, and
      no piece holds the separator. */
  function Split(s: string, sep: char): (parts: seq<string>)
    ensures |parts| >= 1
    ensures forall k :: 0 <= k < |parts| ==> sep !in parts[k]
    decreases |s|
  {
    var i := IndexOf(s, sep);
    if i == |s| then
      assert s[..i] == s;
      [s]
    else
      [s[..i]] + Split(s[i + 1..], sep)
  }

  /** `implode($sep, $parts)`. */
  function Join(parts: seq<string>, sep: char): string {
    if parts == [] then ""
    else if |parts| == 1 then parts[0]
    else parts[0] + [sep] + Join(parts[1..], sep)
  }

  lemma JoinCons(head: string, rest: seq<string>, sep: char)
    requires rest != []
    ensures Join([head] + rest, sep) == head + [sep] + Join(rest, sep)
  {
    var parts := [head] + rest;
    assert parts[0] == head && parts[1..] == rest;
  }

  lemma SplitAt(s: string, sep: char)
    requires IndexOf(s, sep) < |s|
    ensures Split(s, sep) == [s[..IndexOf(s, sep)]] + Split(s[IndexOf(s, sep) + 1..], sep)
  {
  }

  lemma Around(s: string, i: nat)
    requires i < |s|
    ensures s == s[..i] + [s[i]] + s[i + 1..]
  {
    assert s == s[..i] + s[i..];
    assert s[i..] == [s[i]] + s[i + 1..];
  }

  /** Joining the pieces of `s` around its first separator. */
  lemma JoinSplitStep(s: string, sep: char)
    requires IndexOf(s, sep) < |s|
    ensures Join(Split(s, sep), sep) == s[..IndexOf(s, sep)] + [sep] + Join(Split(s[IndexOf(s, sep) + 1..], sep), sep)
  {
    var i := IndexOf(s, sep);
    SplitAt(s, sep);
    JoinCons(s[..i], Split(s[i + 1..], sep), sep);
  }

  /** Splitting loses nothing: joining the pieces gives the string back. */
  lemma {:induction false} JoinSplit(s: string, sep: char)
    ensures Join(Split(s, sep), sep) == s
    decreases |s|
  {
    var i := IndexOf(s, sep);
    if i == |s| {
      assert s[..i] == s;
    } else {
      JoinSplitStep(s, sep);
      JoinSplit(s[i + 1..], sep);
      Around(s, i);
    }
  }

  /** The characters PHP's `trim` strips by default: " \t\n\r\0\x0B". */
  predicate IsTrimChar(c: char) {
    c == ' ' || c == '\t' || c == '\n' || c == '\r' || c == '\0' || c == '\U{000B}'
  }

  function TrimStart(s: string): (r: string)
    ensures |r| <= |s| && r == s[|s| - |r|..]
    ensures forall i :: 0 <= i < |s| - |r| ==> IsTrimChar(s[i])
    ensures r != [] ==> !IsTrimChar(r[0])
  {
    if s != [] && IsTrimChar(s[0]) then
      var r := TrimStart(s[1..]);
      assert s[|s| - |r|..] == s[1..][|s| - 1 - |r|..];
      r
    else s
  }

  function TrimEnd(s: string): (r: string)
    ensures |r| <= |s| && r == s[..|r|]
    ensures forall i :: |r| <= i < |s| ==> IsTrimChar(s[i])
    ensures r != [] ==> !IsTrimChar(r[|r| - 1])
  {
    if s != [] && IsTrimChar(s[|s| - 1]) then
      var r := TrimEnd(s[..|s| - 1]);
      assert s[..|r|] == s[..|s| - 1][..|r|];
      r
    else s
  }

  /** `r` stands in `s` at position `a`. */
  predicate SliceAt(r: string, s: string, a: nat) {
    a + |r| <= |s| && r == s[a..a + |r|]
  }

  /** `r` is `s` with a run of trim characters cut from each end, and
      starts and ends with a character that is kept. */
  predicate StripsTo(s: string, r: string, a: nat) {
    && SliceAt(r, s, a)
    && (forall i :: 0 <= i < a ==> IsTrimChar(s[i]))
    && (forall i :: a + |r| <= i < |s| ==> IsTrimChar(s[i]))
    && (r != [] ==> !IsTrimChar(r[0]) && !IsTrimChar(r[|r| - 1]))
  }

  /** `r` is `s` stripped at both ends, wherever it stands in `s`. */
  ghost predicate Stripped(s: string, r: string) {
    exists a: nat :: StripsTo(s, r, a)
  }

  /** `trim($s)`: the leading and trailing trim characters removed, and
      nothing else. */
  function Trim(s: string): (r: string)
    ensures Stripped(s, r)
  {
    var t := TrimStart(s);
    var r := TrimEnd(t);
    var a := |s| - |t|;
    assert SliceAt(r, s, a);
    assert r != [] ==> r[0] == t[0];
    forall i | a + |r| <= i < |s|
      ensures IsTrimChar(s[i])
    {
      assert s[i] == t[i - a];
    }
    assert StripsTo(s, r, a);
    r
  }

  /** At most one string is `s` stripped at both ends, so the contract of
      `Trim` fixes its result. */
  lemma StrippedUnique(s: string, r: string, r': string)
    requires Stripped(s, r) && Stripped(s, r')
    ensures r == r'
  {
    var a: nat :| StripsTo(s, r, a);
    var a': nat :| StripsTo(s, r', a');
    if r != [] && r' != [] {
      assert s[a] == r[0] && s[a'] == r'[0];
      assert s[a + |r| - 1] == r[|r| - 1] && s[a' + |r'| - 1] == r'[|r'| - 1];
      assert a == a';
      assert a + |r| == a' + |r'|;
    }
  }

  /** A string already free of trim characters at both ends is left as it is. */
  lemma TrimKeeps(s: string)
    requires s != [] ==> !IsTrimChar(s[0]) && !IsTrimChar(s[|s| - 1])
    ensures Trim(s) == s
  {
    assert StripsTo(s, s, 0);
    StrippedUnique(s, Trim(s), s);
  }

  /** Trimming twice is trimming once. */
  lemma TrimIdempotent(s: string)
    ensures Trim(Trim(s)) == Trim(s)
  {
    var a: nat :| StripsTo(s, Trim(s), a);
    TrimKeeps(Trim(s));
  }

  /** The number of occurrences of `c` in `s`. */
  function CountChar(s: string, c: char): nat {
    if s == [] then 0 else (if s[0] == c then 1 else 0) + CountChar(s[1..], c)
  }

  lemma {:induction false} CountCharAppend(a: string, b: string, c: char)
    ensures CountChar(a + b, c) == CountChar(a, c) + CountChar(b, c)
    decreases |a|
  {
    if a == [] {
      assert a + b == b;
    } else {
      assert (a + b)[1..] == a[1..] + b;
      CountCharAppend(a[1..], b, c);
    }
  }

  /** `explode` gives one piece more than there are separators. */
  lemma {:induction false} SplitCount(s: string, sep: char)
    ensures |Split(s, sep)| == CountChar(s, sep) + 1
    decreases |s|
  {
    var i := IndexOf(s, sep);
    if i == |s| {
      assert s[..i] == s;
      CountCharAbsent(s, sep);
    } else {
      SplitCount(s[i + 1..], sep);
      Around(s, i);
      CountCharAppend(s[..i] + [s[i]], s[i + 1..], sep);
      CountCharAppend(s[..i], [s[i]], sep);
      CountCharAbsent(s[..i], sep);
    }
  }

  lemma {:induction false} CountCharAbsent(s: string, c: char)
    requires c !in s
    ensures CountChar(s, c) == 0
    decreases |s|
  {
    if s != [] {
      assert s[0] in s;
      assert forall x :: x in s[1..] ==> x in s;
      CountCharAbsent(s[1..], c);
    }
  }
}
