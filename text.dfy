/**
 * String helpers that several core files rely on: Rust's decimal `to_string`
 * of unsigned integers, `u32::from_str`, `str::splitn(2, c)`, `join` and
 * `trim_left_matches(c)`.
 */
module Text {
  import opened Common

  predicate IsDigit(c: char) {
    '0' <= c <= '9'
  }

  predicate AllDigits(s: string) {
    forall i :: 0 <= i < |s| ==> IsDigit(s[i])
  }

  function DigitChar(d: nat): (c: char)
    requires d < 10
    ensures IsDigit(c) && c as int - '0' as int == d
  {
    ('0' as int + d) as char
  }

  /** Value of a string of decimal digits, most significant first. */
  function DigitsValue(s: string): nat
    requires AllDigits(s)
  {
    if s == [] then 0 else 10 * DigitsValue(s[..|s| - 1]) + (s[|s| - 1] as int - '0' as int)
  }

  /** Decimal rendering of an unsigned integer, as Rust's `to_string` prints it. */
  function Decimal(n: nat): (s: string)
    ensures s != [] && AllDigits(s)
    ensures s[0] == '0' ==> n == 0 && s == "0"
  {
    if n < 10 then [DigitChar(n)] else Decimal(n / 10) + [DigitChar(n % 10)]
  }

  /** Reading back a decimal rendering gives the number again. */
  lemma {:induction false} DecimalValue(n: nat)
    ensures DigitsValue(Decimal(n)) == n
  {
    if n >= 10 {
      DecimalValue(n / 10);
      var s := Decimal(n);
      assert s[..|s| - 1] == Decimal(n / 10);
    }
  }

  /** Two numbers with the same rendering are equal. */
  lemma DecimalInjective(m: nat, n: nat)
    requires Decimal(m) == Decimal(n)
    ensures m == n
  {
    DecimalValue(m);
    DecimalValue(n);
  }

  /**
   * `u32::from_str`: an optional leading '+', then at least one ASCII digit,
   * with a value that fits in 32 bits; anything else is an error.
   */
  function ParseU32(s: string): (r: Option<u32>)
    ensures r.Some? ==> s != [] && forall i :: 0 <= i < |s| ==> IsDigit(s[i]) || (i == 0 && s[i] == '+')
    ensures r.Some? ==> var digits := if s[0] == '+' then s[1..] else s;
                        digits != [] && AllDigits(digits) && r.value == DigitsValue(digits)
  {
    var digits := if |s| > 0 && s[0] == '+' then s[1..] else s;
    if digits != [] && AllDigits(digits) && DigitsValue(digits) < 0x1_0000_0000
    then Some(DigitsValue(digits))
    else None
  }

  /** Every 32-bit value parses back from its decimal rendering. */
  lemma ParseU32Decimal(n: u32)
    ensures ParseU32(Decimal(n)) == Some(n)
  {
    DecimalValue(n);
  }

  /** A field holding a character other than a digit (a '.', a '-') never parses. */
  lemma ParseU32RejectsNonDigit(s: string, i: nat)
    requires i < |s| && !IsDigit(s[i]) && (i > 0 || s[i] != '+')
    ensures ParseU32(s) == None
  {
  }

  /**
   * `s.splitn(2, sep)`: the text before the first `sep` and, when there is
   * one, the text after it (which may hold further separators).
   */
  function SplitOnce(s: string, sep: char): (r: (string, Option<string>))
    ensures sep !in r.0
    ensures r.1.None? ==> r.0 == s
    ensures r.1.Some? ==> s == r.0 + [sep] + r.1.value
  {
    if s == [] then ("", None)
    else if s[0] == sep then ("", Some(s[1..]))
    else
      var rest := SplitOnce(s[1..], sep);
      ([s[0]] + rest.0, rest.1)
  }

  /** Splitting at the first separator of `a + [sep] + b` gives back `a` and `b`. */
  lemma {:induction false} SplitOnceAt(a: string, b: string, sep: char)
    requires sep !in a
    ensures SplitOnce(a + [sep] + b, sep) == (a, Some(b))
  {
    if a != [] {
      SplitOnceAt(a[1..], b, sep);
      var s := a + [sep] + b;
      assert s[0] == a[0] != sep;
      assert s[1..] == a[1..] + [sep] + b;
      assert [a[0]] + a[1..] == a;
    }
  }

  /** `parts.join(sep)`. */
  function Join(parts: seq<string>, sep: string): string
  {
    if parts == [] then ""
    else if |parts| == 1 then parts[0]
    else parts[0] + sep + Join(parts[1..], sep)
  }

  /** The position of the first occurrence of `sep` in `s`, if any. */
  function Find(s: string, sep: string): (r: Option<nat>)
    requires sep != []
    ensures r.Some? ==> r.value + |sep| <= |s| && s[r.value..r.value + |sep|] == sep
    decreases |s|
  {
    if |s| < |sep| then None
    else if s[..|sep|] == sep then Some(0)
    else match Find(s[1..], sep)
      case None => None
      case Some(k) => Some(k + 1)
  }

  /** `s.split(sep)`: the pieces between successive occurrences of `sep`. */
  function SplitOn(s: string, sep: string): (parts: seq<string>)
    requires sep != []
    ensures parts != []
    decreases |s|
  {
    match Find(s, sep)
    case None => [s]
    case Some(i) => [s[..i]] + SplitOn(s[i + |sep|..], sep)
  }

  /**
   * A separator whose last character occurs nowhere else in it is found
   * right after a prefix that lacks that character.
   */
  lemma {:induction false} FindAfter(a: string, sep: string, b: string)
    requires sep != [] && sep[|sep| - 1] !in sep[..|sep| - 1] && sep[|sep| - 1] !in a
    ensures Find(a + sep + b, sep) == Some(|a|)
  {
    var s := a + sep + b;
    if a == [] {
      assert s[..|sep|] == sep;
    } else {
      var c := sep[|sep| - 1];
      if |sep| - 1 < |a| {
        assert s[|sep| - 1] == a[|sep| - 1];
      } else {
        assert s[|sep| - 1] == sep[..|sep| - 1][|sep| - 1 - |a|];
      }
      assert s[..|sep|][|sep| - 1] != c;
      assert s[1..] == a[1..] + sep + b;
      FindAfter(a[1..], sep, b);
    }
  }

  /** A string lacking the separator's last character holds no separator. */
  lemma {:induction false} FindNone(a: string, sep: string)
    requires sep != [] && sep[|sep| - 1] !in a
    ensures Find(a, sep) == None
  {
    if |a| >= |sep| {
      FindNone(a[1..], sep);
    }
  }

  /** Splitting stops first right after a prefix that lacks the separator's last character. */
  lemma SplitOnAfter(a: string, sep: string, rest: string)
    requires sep != [] && sep[|sep| - 1] !in sep[..|sep| - 1] && sep[|sep| - 1] !in a
    ensures SplitOn(a + sep + rest, sep) == [a] + SplitOn(rest, sep)
  {
    var s := a + sep + rest;
    FindAfter(a, sep, rest);
    assert s[..|a|] == a;
    assert s[|a| + |sep|..] == rest;
  }

  /**
   * Splitting a join at its separator gives back the parts, provided the
   * separator's last character occurs in no part and nowhere else in the
   * separator.
   */
  lemma {:induction false} SplitJoin(parts: seq<string>, sep: string)
    requires parts != [] && sep != [] && sep[|sep| - 1] !in sep[..|sep| - 1]
    requires forall i :: 0 <= i < |parts| ==> sep[|sep| - 1] !in parts[i]
    ensures SplitOn(Join(parts, sep), sep) == parts
  {
    if |parts| == 1 {
      FindNone(parts[0], sep);
    } else {
      assert Join(parts, sep) == parts[0] + sep + Join(parts[1..], sep);
      SplitOnAfter(parts[0], sep, Join(parts[1..], sep));
      SplitJoin(parts[1..], sep);
      assert [parts[0]] + parts[1..] == parts;
    }
  }

  /** `s.trim_left_matches(c)`: drops every leading `c` and nothing else. */
  function TrimStart(s: string, c: char): (r: string)
    ensures |r| <= |s| && r == s[|s| - |r|..]
    ensures r == [] || r[0] != c
    ensures forall i :: 0 <= i < |s| - |r| ==> s[i] == c
  {
    if s != [] && s[0] == c then TrimStart(s[1..], c) else s
  }

  /** A string of digits holds neither a '.' nor a '-'. */
  lemma DigitsHaveNoSeparator(s: string)
    requires AllDigits(s)
    ensures '.' !in s && '-' !in s
  {
    assert forall i :: 0 <= i < |s| ==> IsDigit(s[i]);
  }

  /** A decimal rendering holds neither a '.' nor a '-'. */
  lemma NoSeparatorInDecimal(n: nat)
    ensures '.' !in Decimal(n) && '-' !in Decimal(n)
  {
    DigitsHaveNoSeparator(Decimal(n));
  }

  /** Counts the occurrences of `c` in `s`. */
  function CountChar(s: string, c: char): nat
  {
    if s == [] then 0 else (if s[0] == c then 1 else 0) + CountChar(s[1..], c)
  }

  lemma {:induction false} CountCharSplit(a: string, b: string, c: char)
    ensures CountChar(a + b, c) == CountChar(a, c) + CountChar(b, c)
  {
    if a != [] {
      assert (a + b)[0] == a[0];
      assert (a + b)[1..] == a[1..] + b;
      CountCharSplit(a[1..], b, c);
    } else {
      assert a + b == b;
    }
  }
}
