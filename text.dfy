/** String operations the JavaScript sources rely on: `String.prototype.trim`,
    `String(n)` for integers, `slice(-2)` and `toLowerCase`. */
module Text {

  /** The characters `trim` removes: ECMAScript WhiteSpace (tab, vertical tab,
      form feed, space, no-break space, byte-order mark and the Unicode space
      separators) and LineTerminator (LF, CR, LS, PS). */
  predicate IsWhitespace(c: char) {
    var n := c as int;
    n == 0x09 || n == 0x0A || n == 0x0B || n == 0x0C || n == 0x0D || n == 0x20 ||
    n == 0xA0 || n == 0x1680 || (0x2000 <= n <= 0x200A) || n == 0x2028 ||
    n == 0x2029 || n == 0x202F || n == 0x205F || n == 0x3000 || n == 0xFEFF
  }

  /** Neither end of `s` is whitespace. */
  predicate IsTrimmed(s: string) {
    s == [] || (!IsWhitespace(s[0]) && !IsWhitespace(s[|s| - 1]))
  }

  /** `s` with leading whitespace removed: a suffix of `s` that drops only whitespace. */
  function TrimStart(s: string): (r: string)
    ensures |r| <= |s| && r == s[|s| - |r|..]
    ensures r == [] || !IsWhitespace(r[0])
    ensures forall i :: 0 <= i < |s| - |r| ==> IsWhitespace(s[i])
  {
    if s != [] && IsWhitespace(s[0]) then TrimStart(s[1..]) else s
  }

  /** `s` with trailing whitespace removed: a prefix of `s` that drops only whitespace. */
  function TrimEnd(s: string): (r: string)
    ensures |r| <= |s| && r == s[..|r|]
    ensures r == [] || !IsWhitespace(r[|r| - 1])
    ensures forall i :: |r| <= i < |s| ==> IsWhitespace(s[i])
  {
    if s != [] && IsWhitespace(s[|s| - 1]) then TrimEnd(s[..|s| - 1]) else s
  }

  /** A prefix `r` of a suffix `t` of `s`, where `s` holds only whitespace
      before `t` and `t` only whitespace after `r`, is `s[a..b]` with only
      whitespace outside the bounds. */
  lemma WhitespaceBounds(s: string, t: string, r: string)
    requires |t| <= |s| && t == s[|s| - |t|..]
    requires forall i :: 0 <= i < |s| - |t| ==> IsWhitespace(s[i])
    requires |r| <= |t| && r == t[..|r|]
    requires forall i :: |r| <= i < |t| ==> IsWhitespace(t[i])
    ensures exists a, b :: 0 <= a <= b <= |s| && r == s[a..b]
              && (forall i :: 0 <= i < a ==> IsWhitespace(s[i]))
              && (forall i :: b <= i < |s| ==> IsWhitespace(s[i]))
  {
    var a := |s| - |t|;
    var b := a + |r|;
    assert r == s[a..b];
    forall i | b <= i < |s| ensures IsWhitespace(s[i]) {
      assert s[i] == t[i - a];
    }
    assert 0 <= a <= b <= |s| && r == s[a..b]
           && (forall i :: 0 <= i < a ==> IsWhitespace(s[i]))
           && (forall i :: b <= i < |s| ==> IsWhitespace(s[i]));
  }

  /** `String.prototype.trim`: the part of `s` left after dropping whitespace
      at both ends, and only whitespace. */
  function Trim(s: string): (r: string)
    ensures IsTrimmed(r)
    ensures |r| <= |s|
    ensures exists a, b :: 0 <= a <= b <= |s| && r == s[a..b]
              && (forall i :: 0 <= i < a ==> IsWhitespace(s[i]))
              && (forall i :: b <= i < |s| ==> IsWhitespace(s[i]))
  {
    WhitespaceBounds(s, TrimStart(s), TrimEnd(TrimStart(s)));
    TrimEnd(TrimStart(s))
  }

  /** Trimming a string that has no whitespace at either end changes nothing,
      so trimming twice is trimming once. */
  lemma TrimFixesTrimmed(s: string)
    requires IsTrimmed(s)
    ensures Trim(s) == s
  {
  }

  lemma TrimIdempotent(s: string)
    ensures Trim(Trim(s)) == Trim(s)
  {
    TrimFixesTrimmed(Trim(s));
  }

  predicate IsDigit(c: char) { '0' <= c <= '9' }

  function DigitChar(d: int): (c: char)
    requires 0 <= d < 10
    ensures IsDigit(c) && c as int - '0' as int == d
  {
    ('0' as int + d) as char
  }

  /** The decimal rendering of a natural number, most significant digit first. */
  function NatToString(n: nat): (r: string)
    ensures 1 <= |r|
    ensures IsDigit(r[0])
    ensures (n < 10) == (|r| == 1)
    ensures r[|r| - 1] == DigitChar(n % 10)
    decreases n
  {
    if n < 10 then [DigitChar(n)] else NatToString(n / 10) + [DigitChar(n % 10)]
  }

  /** `String(i)` for an integer `i`. */
  function IntToString(i: int): (r: string)
    ensures 1 <= |r|
    ensures i < 0 <==> r[0] == '-'
  {
    if i < 0 then "-" + NatToString(-i) else NatToString(i)
  }

  /** Different natural numbers have different renderings. */
  lemma {:induction false} NatToStringInjective(a: nat, b: nat)
    requires NatToString(a) == NatToString(b)
    ensures a == b
    decreases a
  {
    if a >= 10 && b >= 10 {
      var ra, rb := NatToString(a), NatToString(b);
      assert ra[..|ra| - 1] == NatToString(a / 10);
      assert rb[..|rb| - 1] == NatToString(b / 10);
      NatToStringInjective(a / 10, b / 10);
    }
  }

  /** Different integers have different renderings: `String` is injective. */
  lemma IntToStringInjective(a: int, b: int)
    requires IntToString(a) == IntToString(b)
    ensures a == b
  {
    if a < 0 {
      assert NatToString(-a) == IntToString(a)[1..];
      assert NatToString(-b) == IntToString(b)[1..];
      NatToStringInjective(-a, -b);
    } else {
      NatToStringInjective(a, b);
    }
  }

  /** `s.slice(-2)`: the last two characters, or all of `s` when it is shorter. */
  function SliceLastTwo(s: string): (r: string)
    ensures |r| == if |s| < 2 then |s| else 2
    ensures r == s[|s| - |r|..]
  {
    if |s| < 2 then s else s[|s| - 2..]
  }

  /** For a number of two digits or more, `String(n).slice(-2)` is its tens
      digit followed by its units digit. */
  lemma TwoDigitSuffix(n: nat)
    requires n >= 10
    ensures SliceLastTwo(NatToString(n)) == [DigitChar(n / 10 % 10), DigitChar(n % 10)]
  {
    var r := NatToString(n);
    var p := NatToString(n / 10);
    assert r == p + [DigitChar(n % 10)];
    assert |r| >= 2 && SliceLastTwo(r) == r[|r| - 2..];
    assert r[|r| - 2..] == [r[|r| - 2], r[|r| - 1]];
    assert r[|r| - 2] == p[|p| - 1] == DigitChar(n / 10 % 10);
  }

  /** `String(y).slice(-2)` in closed form: the last two digits, the single
      digit of a one-digit number, and `-d` for a one-digit negative number. */
  function YearSuffix(y: int): (r: string)
    ensures 1 <= |r| <= 2
  {
    if y >= 10 then [DigitChar(y / 10 % 10), DigitChar(y % 10)]
    else if y >= 0 then [DigitChar(y)]
    else if y > -10 then ['-', DigitChar(-y)]
    else [DigitChar(-y / 10 % 10), DigitChar(-y % 10)]
  }

  lemma SliceOfShort(s: string)
    requires |s| <= 2
    ensures SliceLastTwo(s) == s
  {
  }

  lemma SliceBehindSign(d: string)
    requires |d| >= 2
    ensures SliceLastTwo("-" + d) == SliceLastTwo(d)
  {
    assert ("-" + d)[|"-" + d| - 2..] == d[|d| - 2..];
  }

  lemma NegativeSuffix(y: int)
    requires y <= -10
    ensures YearSuffix(y) == SliceLastTwo(IntToString(y))
  {
    var n: nat := -y;
    var d := NatToString(n);
    assert IntToString(y) == "-" + d;
    assert |d| >= 2;
    SliceBehindSign(d);
    TwoDigitSuffix(n);
    assert YearSuffix(y) == [DigitChar(n / 10 % 10), DigitChar(n % 10)];
  }

  lemma DigitSuffix(y: int)
    requires 0 <= y < 10
    ensures YearSuffix(y) == SliceLastTwo(IntToString(y))
  {
    assert IntToString(y) == [DigitChar(y)];
    SliceOfShort([DigitChar(y)]);
  }

  lemma NegativeDigitSuffix(y: int)
    requires -10 < y < 0
    ensures YearSuffix(y) == SliceLastTwo(IntToString(y))
  {
    assert NatToString(-y) == [DigitChar(-y)];
    assert IntToString(y) == ['-', DigitChar(-y)];
    SliceOfShort(['-', DigitChar(-y)]);
  }

  /** The closed form is what `String(y).slice(-2)` computes. */
  lemma YearSuffixIsSlice(y: int)
    ensures YearSuffix(y) == SliceLastTwo(IntToString(y))
  {
    if y >= 10 {
      TwoDigitSuffix(y);
    } else if y <= -10 {
      NegativeSuffix(y);
    } else if y >= 0 {
      DigitSuffix(y);
    } else {
      NegativeDigitSuffix(y);
    }
  }

  /** `toLowerCase` on one character, for the ASCII letters. */
  function ToLowerChar(c: char): (r: char)
    ensures !('A' <= r <= 'Z')
    ensures 'A' <= c <= 'Z' ==> r as int == c as int + 32
    ensures !('A' <= c <= 'Z') ==> r == c
  {
    if 'A' <= c <= 'Z' then (c as int - 'A' as int + 'a' as int) as char else c
  }

  function ToLower(s: string): (r: string)
    ensures |r| == |s|
    ensures forall i :: 0 <= i < |s| ==> r[i] == ToLowerChar(s[i])
  {
    seq(|s|, i requires 0 <= i < |s| => ToLowerChar(s[i]))
  }

  /** Lower-casing is idempotent. */
  lemma ToLowerIdempotent(s: string)
    ensures ToLower(ToLower(s)) == ToLower(s)
  {
  }
}
