/**
 The text primitives the modelled code takes from Go's `strings` and `strconv`:
 trimming, decimal printing and decimal parsing.
 */
module Text {
  import opened Wrappers

  // ----- characters and trimming -----

  predicate IsDigit(c: char) {
    '0' <= c <= '9'
  }

  predicate AllDigits(s: string) {
    forall i | 0 <= i < |s| :: IsDigit(s[i])
  }

  /** unicode.IsSpace */
  predicate IsSpace(c: char) {
    || '\t' <= c <= '\r' || c == ' '
    || c == '\U{0085}' || c == '\U{00A0}' || c == '\U{1680}'
    || '\U{2000}' <= c <= '\U{200A}' || c == '\U{2028}' || c == '\U{2029}'
    || c == '\U{202F}' || c == '\U{205F}' || c == '\U{3000}'
  }

  // The characters with Unicode's White_Space property: before U+2000, and from there on.
  const LOW_SPACE: seq<char> := ['\t', '\n', '\U{000B}', '\U{000C}', '\r', ' ', '\U{0085}', '\U{00A0}', '\U{1680}']
  const HIGH_SPACE: seq<char> := [
    '\U{2000}', '\U{2001}', '\U{2002}', '\U{2003}', '\U{2004}', '\U{2005}', '\U{2006}', '\U{2007}', '\U{2008}',
    '\U{2009}', '\U{200A}', '\U{2028}', '\U{2029}', '\U{202F}', '\U{205F}', '\U{3000}']

  lemma IsLowSpaceIff(c: char)
    requires c < '\U{2000}'
    ensures IsSpace(c) <==> c in LOW_SPACE
  {
    var n := c as int;
    assert c in LOW_SPACE <==> 9 <= n <= 13 || n == 32 || n == 0x85 || n == 0xA0 || n == 0x1680;
  }

  lemma IsHighSpaceIff(c: char)
    requires c >= '\U{2000}'
    ensures IsSpace(c) <==> c in HIGH_SPACE
  {
    var n := c as int;
    assert c in HIGH_SPACE <==> n <= 0x200A || n == 0x2028 || n == 0x2029 || n == 0x202F || n == 0x205F || n == 0x3000;
  }

  /** Neither end of `s` is white space. */
  predicate Trimmed(s: string) {
    s == "" || (!IsSpace(s[0]) && !IsSpace(s[|s| - 1]))
  }

  function TrimLeft(s: string): (r: string)
    ensures r == "" || !IsSpace(r[0])
    ensures s != "" && !IsSpace(s[|s| - 1]) ==> r != "" && r[|r| - 1] == s[|s| - 1]
    ensures s != "" && !IsSpace(s[0]) ==> r == s
  {
    if s != "" && IsSpace(s[0]) then TrimLeft(s[1..]) else s
  }

  function TrimRight(s: string): (r: string)
    ensures r == "" || !IsSpace(r[|r| - 1])
    ensures s != "" && !IsSpace(s[0]) ==> r != "" && r[0] == s[0]
    ensures s != "" && !IsSpace(s[|s| - 1]) ==> r == s
  {
    if s != "" && IsSpace(s[|s| - 1]) then TrimRight(s[..|s| - 1]) else s
  }

  /** strings.TrimSpace */
  function TrimSpace(s: string): (r: string)
    ensures Trimmed(r)
    ensures Trimmed(s) ==> r == s
  {
    TrimRight(TrimLeft(s))
  }

  lemma {:induction false} TrimLeftDropsSpace(s: string) returns (i: nat)
    ensures i <= |s| && TrimLeft(s) == s[i..] && forall p | 0 <= p < i :: IsSpace(s[p])
  {
    i := 0;
    if s != "" && IsSpace(s[0]) {
      i := TrimLeftDropsSpace(s[1..]);
      assert forall p | 0 < p < i + 1 :: s[p] == s[1..][p - 1];
      i := i + 1;
    }
  }

  lemma {:induction false} TrimRightDropsSpace(s: string) returns (j: nat)
    ensures j <= |s| && TrimRight(s) == s[..j] && forall p | j <= p < |s| :: IsSpace(s[p])
  {
    j := |s|;
    if s != "" && IsSpace(s[|s| - 1]) {
      j := TrimRightDropsSpace(s[..|s| - 1]);
    }
  }

  /** `r` is a part of `s` with nothing but white space before and behind it, and none at its own ends. */
  ghost predicate IsTrimmedOf(s: string, i: nat, j: nat, r: string) {
    && i <= j <= |s| && r == s[i..j] && Trimmed(r)
    && (forall p | 0 <= p < i :: IsSpace(s[p])) && (forall p | j <= p < |s| :: IsSpace(s[p]))
  }

  lemma TrimSpaceParts(s: string) returns (i: nat, j: nat)
    ensures IsTrimmedOf(s, i, j, TrimSpace(s))
  {
    i := TrimLeftDropsSpace(s);
    var k := TrimRightDropsSpace(s[i..]);
    j := i + k;
    assert s[i..][..k] == s[i..j];
    assert forall p | j <= p < |s| :: s[p] == s[i..][p - i];
  }

  lemma SameTrimmed(s: string, i: nat, j: nat, r: string, k: nat, l: nat, t: string)
    requires IsTrimmedOf(s, i, j, r) && IsTrimmedOf(s, k, l, t)
    ensures r == t
  {
    assert r != "" ==> r[0] == s[i] && r[|r| - 1] == s[j - 1];
    assert t != "" ==> t[0] == s[k] && t[|t| - 1] == s[l - 1];
  }

  /** Trimming takes off the white space at both ends, and nothing else. */
  lemma TrimSpaceIff(s: string, r: string)
    ensures r == TrimSpace(s) <==> exists i, j :: IsTrimmedOf(s, i, j, r)
  {
    var i, j := TrimSpaceParts(s);
    if k: nat, l: nat :| IsTrimmedOf(s, k, l, r) {
      SameTrimmed(s, i, j, TrimSpace(s), k, l, r);
    }
  }

  // ----- decimal numbers -----

  function Digit(d: nat): (c: char)
    requires d < 10
    ensures IsDigit(c) && c as int - '0' as int == d
  {
    ('0' as int + d) as char
  }

  /** strconv.FormatUint(n, 10) */
  function Print(n: nat): (s: string)
    ensures s != "" && AllDigits(s)
  {
    if n < 10 then [Digit(n)] else Print(n / 10) + [Digit(n % 10)]
  }

  /** The number a string of digits denotes, leading zeros allowed. */
  function Value(s: string): nat
    requires AllDigits(s)
  {
    if s == "" then 0 else 10 * Value(s[..|s| - 1]) + (s[|s| - 1] as int - '0' as int)
  }

  lemma {:induction false} ValueOfPrint(n: nat)
    ensures Value(Print(n)) == n
  {
    if n >= 10 {
      ValueOfPrint(n / 10);
      assert Print(n)[..|Print(n)| - 1] == Print(n / 10);
    }
  }

  function Power10(n: nat): nat {
    if n == 0 then 1 else 10 * Power10(n - 1)
  }

  lemma ValueOfLast(s: string, c: char)
    requires AllDigits(s) && IsDigit(c)
    ensures AllDigits(s + [c]) && Value(s + [c]) == 10 * Value(s) + (c as int - '0' as int)
  {
    assert (s + [c])[..|s + [c]| - 1] == s;
  }

  lemma TenTimes(x: int, y: int, z: int)
    ensures 10 * (x * y + z) == x * (10 * y) + 10 * z
  {
  }

  /** Positional notation: each digit counts ten times as much as the one behind it. */
  lemma {:induction false} ValueOfBoth(s: string, t: string)
    requires AllDigits(s) && AllDigits(t)
    ensures AllDigits(s + t) && Value(s + t) == Value(s) * Power10(|t|) + Value(t)
    decreases |t|
  {
    if t == "" {
      assert s + t == s;
    } else {
      var before, c := t[..|t| - 1], t[|t| - 1];
      ValueOfBoth(s, before);
      assert t == before + [c] && s + t == s + before + [c];
      ValueOfLast(s + before, c);
      ValueOfLast(before, c);
      TenTimes(Value(s), Power10(|before|), Value(before));
    }
  }

  lemma ValueOfDigit(d: nat)
    requires d < 10
    ensures Value([Digit(d)]) == d
  {
    assert [Digit(d)][..0] == "";
  }

  /** No number but zero is printed with a leading zero. */
  lemma {:induction false} PrintHasNoLeadingZero(n: nat)
    ensures n > 0 ==> Print(n)[0] != '0'
    ensures Print(0) == "0"
  {
    if n >= 10 {
      PrintHasNoLeadingZero(n / 10);
    }
  }

  lemma PrintIsInjective(m: nat, n: nat)
    requires Print(m) == Print(n)
    ensures m == n
  {
    ValueOfPrint(m);
    ValueOfPrint(n);
  }

  /** Decimal text followed by a separator can be read off the front of a longer text. */
  lemma DigitsThenSeparator(d1: string, rest1: string, d2: string, rest2: string, sep: char)
    requires AllDigits(d1) && AllDigits(d2) && !IsDigit(sep)
    requires d1 + [sep] + rest1 == d2 + [sep] + rest2
    ensures d1 == d2 && rest1 == rest2
  {
    var whole := d1 + [sep] + rest1;
    assert whole[|d1|] == sep;
    assert whole == d2 + [sep] + rest2;
    assert whole[|d2|] == sep;
    assert forall i | 0 <= i < |d1| :: whole[i] == d1[i];
    assert forall i | 0 <= i < |d2| :: whole[i] == d2[i];
    assert |d1| == |d2|;
    assert d1 == whole[..|d1|] && d2 == whole[..|d2|];
    assert rest1 == whole[|d1| + 1..] && rest2 == whole[|d2| + 1..];
  }

  const INT64_MIN: int := -0x8000_0000_0000_0000
  const INT64_MAX: int := 0x7FFF_FFFF_FFFF_FFFF
  const UINT64_MAX: int := 0xFFFF_FFFF_FFFF_FFFF

  type int64 = x: int | -0x8000_0000_0000_0000 <= x <= 0x7FFF_FFFF_FFFF_FFFF
  type uint64 = x: int | 0 <= x <= 0xFFFF_FFFF_FFFF_FFFF

  const TWO64: int := 0x1_0000_0000_0000_0000

  /** Two's complement overflow: 2^64 is taken off or added until the number fits in 64 bits. */
  function Wrap(x: int): (r: int64)
    ensures INT64_MIN <= x <= INT64_MAX ==> r == x
    decreases if x > INT64_MAX then x - INT64_MAX else if x < INT64_MIN then INT64_MIN - x else 0
  {
    if x > INT64_MAX then Wrap(x - TWO64)
    else if x < INT64_MIN then Wrap(x + TWO64)
    else x
  }

  /** strconv.FormatInt(x, 10), and what the Redis client sends for an int. */
  function PrintInt(x: int): (s: string)
    ensures s != ""
  {
    if x < 0 then "-" + Print(-x) else Print(x)
  }

  /** strconv.ParseUint(s, 10, 64) */
  function ParseUint(s: string): Option<uint64> {
    if s != "" && AllDigits(s) && Value(s) <= UINT64_MAX then Some(Value(s)) else None
  }

  /** strconv.Atoi on a 64-bit platform: an optional sign, digits, and the range of an int. */
  function Atoi(s: string): Option<int64> {
    var neg := s != "" && s[0] == '-';
    var digits := if s != "" && (s[0] == '-' || s[0] == '+') then s[1..] else s;
    if digits == "" || !AllDigits(digits) then None
    else
      var v: int := if neg then 0 - Value(digits) else Value(digits);
      if INT64_MIN <= v <= INT64_MAX then Some(v) else None
  }

  /** The text is digits, with or without a sign in front, that denote `x`. */
  ghost predicate Denotes(s: string, digits: string, x: int) {
    && digits != "" && AllDigits(digits)
    && (((s == digits || s == "+" + digits) && x == Value(digits)) || (s == "-" + digits && x == 0 - Value(digits)))
  }

  /** Any text: what is read of it, leading zeros and a plus sign included. */
  lemma AtoiIff(s: string, x: int64)
    ensures Atoi(s) == Some(x) <==> exists digits :: Denotes(s, digits, x)
  {
    if s != "" && (s[0] == '-' || s[0] == '+') {
      assert s == [s[0]] + s[1..];
      assert "-" + s[1..] == ['-'] + s[1..] && "+" + s[1..] == ['+'] + s[1..];
      assert Atoi(s) == Some(x) ==> Denotes(s, s[1..], x);
    } else {
      assert Atoi(s) == Some(x) ==> Denotes(s, s, x);
    }
    if digits :| Denotes(s, digits, x) {
      AtoiOfDenoted(s, digits, x);
    }
  }

  lemma AtoiOfDenoted(s: string, digits: string, x: int64)
    requires Denotes(s, digits, x)
    ensures Atoi(s) == Some(x)
  {
    if s == digits {
      assert IsDigit(s[0]);
    } else {
      assert s[1..] == digits;
    }
  }

  lemma AtoiInvertsPrintInt(x: int64)
    ensures Atoi(PrintInt(x)) == Some(x)
    ensures Trimmed(PrintInt(x))
  {
    var magnitude: nat := if x < 0 then 0 - x else x;
    ValueOfPrint(magnitude);
    var digits := Print(magnitude);
    var s := PrintInt(x);
    if x < 0 {
      assert s[0] == '-' && s[1..] == digits;
      assert IsDigit(s[|s| - 1]);
    } else {
      assert s == digits && IsDigit(s[0]);
    }
  }

  lemma ParseUintInvertsPrint(n: uint64)
    ensures ParseUint(Print(n)) == Some(n)
    ensures Trimmed(Print(n))
  {
    ValueOfPrint(n);
  }
}
