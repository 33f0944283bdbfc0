/**
 * The few java.lang.String and java.io.File operations the task relies on, on `seq<char>`.
 * Paths on the orchestrating host are POSIX paths (separator '/').
 */
module Text {
  import opened Wrappers

  /** `String.trim()` removes every char at or below the space character. */
  predicate IsBlank(c: char) { c <= ' ' }

  predicate StartsWith(s: string, prefix: string) { prefix <= s }

  /** Java's string conversion of a possibly-null reference: null prints as "null". */
  function JavaString(s: Option<string>): string
  {
    if s.Some? then s.value else "null"
  }

  function TrimStart(s: string): (r: string)
    ensures |r| <= |s| && r == s[|s| - |r|..]
    ensures r == [] || !IsBlank(r[0])
    ensures forall k :: 0 <= k < |s| - |r| ==> IsBlank(s[k])
  {
    if |s| > 0 && IsBlank(s[0]) then TrimStart(s[1..]) else s
  }

  function TrimEnd(s: string): (r: string)
    ensures |r| <= |s| && r == s[..|r|]
    ensures r == [] || !IsBlank(r[|r| - 1])
    ensures forall k :: |r| <= k < |s| ==> IsBlank(s[k])
  {
    if |s| > 0 && IsBlank(s[|s| - 1]) then TrimEnd(s[..|s| - 1]) else s
  }

  /** `r` is the slice of `s` starting at `a`, and every char of `s` outside it is blank. */
  predicate BlankAround(s: string, r: string, a: int)
  {
    0 <= a <= |s| - |r| && r == s[a..a + |r|]
    && (forall i :: 0 <= i < a ==> IsBlank(s[i]))
    && (forall i :: a + |r| <= i < |s| ==> IsBlank(s[i]))
  }

  /**
   * `String.trim()`: the slice of `s` left once the blank chars at both ends are dropped (see
   * `TrimDropsBlankEnds`); its first and last chars are not blank.
   */
  function Trim(s: string): (r: string)
    ensures |r| <= |s|
    ensures r == [] || (!IsBlank(r[0]) && !IsBlank(r[|r| - 1]))
  {
    TrimEnd(TrimStart(s))
  }

  /** What `String.trim()` drops are blank chars at both ends: the result is a slice of `s`. */
  lemma TrimDropsBlankEnds(s: string)
    ensures exists a :: BlankAround(s, Trim(s), a)
  {
    TrimIsSlice(s, TrimStart(s), Trim(s));
  }

  /** A prefix that drops only blank chars of a suffix that drops only blank chars. */
  lemma TrimIsSlice(s: string, t: string, r: string)
    requires |t| <= |s| && t == s[|s| - |t|..] && forall k :: 0 <= k < |s| - |t| ==> IsBlank(s[k])
    requires |r| <= |t| && r == t[..|r|] && forall k :: |r| <= k < |t| ==> IsBlank(t[k])
    ensures BlankAround(s, r, |s| - |t|)
  {
    var a := |s| - |t|;
    assert r == s[a..a + |r|];
    forall i | a + |r| <= i < |s|
      ensures IsBlank(s[i])
    {
      assert s[i] == t[i - a];
    }
  }

  /** A string that already starts and ends with a non-blank char is its own trim. */
  lemma TrimOfTrimmed(s: string)
    requires s == [] || (!IsBlank(s[0]) && !IsBlank(s[|s| - 1]))
    ensures Trim(s) == s
  {
  }

  /** `String.indexOf(c)`: the first index of `c`, or -1. */
  function IndexOf(s: string, c: char): (r: int)
    ensures -1 <= r < |s|
    ensures r == -1 <==> c !in s
    ensures 0 <= r ==> r < |s| && s[r] == c && c !in s[..r]
  {
    if s == [] then -1
    else if s[0] == c then 0
    else
      var r := IndexOf(s[1..], c);
      if r < 0 then -1
      else
        assert s[..r + 1] == [s[0]] + s[1..][..r];
        r + 1
  }

  function UpperChar(c: char): char
  {
    if 'a' <= c <= 'z' then (c as int - 32) as char else c
  }

  /** `String.toUpperCase()`, on ASCII letters. */
  function Upper(s: string): string
  {
    seq(|s|, i requires 0 <= i < |s| => UpperChar(s[i]))
  }

  // ---- decimal text of integers: `String.valueOf(int)` and string concatenation of an int

  function DigitChar(d: nat): char
    requires d < 10
  {
    ('0' as int + d) as char
  }

  predicate IsDigit(c: char) { '0' <= c <= '9' }

  function DigitValue(c: char): nat
    requires IsDigit(c)
  {
    c as int - '0' as int
  }

  function NatDigits(n: nat): string
    decreases n
  {
    if n < 10 then [DigitChar(n)] else NatDigits(n / 10) + [DigitChar(n % 10)]
  }

  /** The decimal text Java prints for an int. */
  function Decimal(n: int): string
  {
    if n < 0 then "-" + NatDigits(-n) else NatDigits(n)
  }

  predicate AllDigits(s: string)
  {
    forall i :: 0 <= i < |s| ==> IsDigit(s[i])
  }

  /** Decimal digits without a superfluous leading zero. */
  predicate IsNumeral(s: string)
  {
    |s| > 0 && AllDigits(s) && (s[0] == '0' ==> |s| == 1)
  }

  /** Text accepted by `Integer.parseInt` in its canonical form. */
  predicate IsDecimal(s: string)
  {
    IsNumeral(s) || (|s| > 1 && s[0] == '-' && IsNumeral(s[1..]) && s[1] != '0')
  }

  function ParseNat(s: string): nat
    requires AllDigits(s)
  {
    if s == [] then 0 else ParseNat(s[..|s| - 1]) * 10 + DigitValue(s[|s| - 1])
  }

  function ParseInt(s: string): int
    requires IsDecimal(s)
  {
    var magnitude: int := if s[0] == '-' then ParseNat(s[1..]) else ParseNat(s);
    if s[0] == '-' then -magnitude else magnitude
  }

  lemma {:induction false} NatDigitsRoundTrip(n: nat)
    ensures IsNumeral(NatDigits(n))
    ensures ParseNat(NatDigits(n)) == n
    decreases n
  {
    if n >= 10 {
      NatDigitsRoundTrip(n / 10);
      var s := NatDigits(n);
      assert s[..|s| - 1] == NatDigits(n / 10);
    }
  }

  /** The decimal text of an int reads back as that int. */
  lemma DecimalRoundTrip(n: int)
    ensures IsDecimal(Decimal(n))
    ensures ParseInt(Decimal(n)) == n
  {
    if n < 0 {
      NatDigitsRoundTrip(-n);
      assert Decimal(n)[1..] == NatDigits(-n);
    } else {
      NatDigitsRoundTrip(n);
    }
  }

  // ---- java.io.File names on the orchestrating host

  function TrimTrailingSlashes(p: string): (r: string)
    ensures |r| <= |p| && r == p[..|r|]
    ensures r == [] || r[|r| - 1] != '/'
    ensures forall k :: |r| <= k < |p| ==> p[k] == '/'
  {
    if |p| > 0 && p[|p| - 1] == '/' then TrimTrailingSlashes(p[..|p| - 1]) else p
  }

  function LastSegment(p: string): (r: string)
    ensures '/' !in r
    ensures |r| <= |p| && r == p[|p| - |r|..]
    ensures |r| < |p| ==> p[|p| - |r| - 1] == '/'
  {
    if p == [] || p[|p| - 1] == '/' then [] else LastSegment(p[..|p| - 1]) + [p[|p| - 1]]
  }

  /**
   * `new File(p).getName()`: File drops trailing separators, and the name is what follows
   * the last remaining one.
   */
  function FileName(p: string): (r: string)
    ensures '/' !in r
    ensures var q := TrimTrailingSlashes(p); |r| <= |q| && r == q[|q| - |r|..]
    ensures var q := TrimTrailingSlashes(p); |r| < |q| ==> q[|q| - |r| - 1] == '/'
  {
    LastSegment(TrimTrailingSlashes(p))
  }

  /** `new File(dir, name).getPath()` for a child name. */
  function ChildPath(dir: string, name: string): string
  {
    TrimTrailingSlashes(dir) + "/" + name
  }
}
