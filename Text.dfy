/**
 * Character and string helpers shared by the components: ASCII case folding
 * (`toLowerCase`), substring search (`includes`), decimal rendering of
 * integers (template-literal interpolation) and `parseInt`.
 */
module Text {

  datatype Option<T> = None | Some(value: T)

  /** `toLowerCase` on one character; only ASCII letters are folded. */
  function LowerChar(c: char): (r: char)
    ensures 'A' <= c <= 'Z' ==> r as int == c as int + 32
    ensures !('A' <= c <= 'Z') ==> r == c
  {
    if 'A' <= c <= 'Z' then (c as int + 32) as char else c
  }

  /** `s.toLowerCase()` */
  function Lower(s: string): (r: string)
    ensures |r| == |s|
    ensures forall i :: 0 <= i < |s| ==> r[i] == LowerChar(s[i])
  {
    seq(|s|, i requires 0 <= i < |s| => LowerChar(s[i]))
  }

  /** A string with no upper-case ASCII letter. */
  predicate IsLower(s: string)
  {
    forall i :: 0 <= i < |s| ==> !('A' <= s[i] <= 'Z')
  }

  lemma LowerIsLower(s: string)
    ensures IsLower(Lower(s))
    ensures Lower(Lower(s)) == Lower(s)
  {
  }

  lemma LowerOfLowerIsIdentity(s: string)
    requires IsLower(s)
    ensures Lower(s) == s
  {
  }

  lemma LowerAppend(a: string, b: string)
    ensures Lower(a + b) == Lower(a) + Lower(b)
  {
  }

  /** `p` occurs in `s` starting at index `i`, compared character by character. */
  predicate MatchAt(s: string, p: string, i: nat, k: nat)
    requires i + |p| <= |s| && k <= |p|
    decreases |p| - k
  {
    k == |p| || (s[i + k] == p[k] && MatchAt(s, p, i, k + 1))
  }

  /** `p` occurs in `s` at some index at or after `i`. */
  predicate ContainsFrom(s: string, p: string, i: nat)
    decreases |s| - i
  {
    i + |p| <= |s| && (MatchAt(s, p, i, 0) || ContainsFrom(s, p, i + 1))
  }

  /** `s.includes(p)` */
  predicate Contains(s: string, p: string)
  {
    ContainsFrom(s, p, 0)
  }

  lemma {:induction false} MatchAtIsSlice(s: string, p: string, i: nat, k: nat)
    requires i + |p| <= |s| && k <= |p|
    ensures MatchAt(s, p, i, k) <==> s[i + k..i + |p|] == p[k..]
    decreases |p| - k
  {
    if k < |p| {
      MatchAtIsSlice(s, p, i, k + 1);
      assert s[i + k..i + |p|] == [s[i + k]] + s[i + k + 1..i + |p|];
      assert p[k..] == [p[k]] + p[k + 1..];
    }
  }

  /** The slice of `s` at `j` of the length of `p` is `p`. */
  predicate OccursAt(s: string, p: string, j: nat)
  {
    j + |p| <= |s| && s[j..j + |p|] == p
  }

  lemma {:induction false} ContainsFromIsExists(s: string, p: string, i: nat)
    ensures ContainsFrom(s, p, i) <==> exists j: nat :: i <= j && OccursAt(s, p, j)
    decreases |s| - i
  {
    if i + |p| <= |s| {
      MatchAtIsSlice(s, p, i, 0);
      ContainsFromIsExists(s, p, i + 1);
      assert p[0..] == p;
      if MatchAt(s, p, i, 0) {
        assert OccursAt(s, p, i);
      }
      if exists j: nat :: i <= j && OccursAt(s, p, j) {
        var j: nat :| i <= j && OccursAt(s, p, j);
        if j > i {
          assert i + 1 <= j;
        }
      }
    }
  }

  /** `includes` holds exactly when some slice of `s` equals `p`. */
  lemma ContainsIsExists(s: string, p: string)
    ensures Contains(s, p) <==> exists j: nat :: OccursAt(s, p, j)
  {
    ContainsFromIsExists(s, p, 0);
  }

  /** A string lacking one of `p`'s characters does not contain `p`. */
  lemma NotContainsWithoutChar(s: string, p: string, k: nat)
    requires k < |p|
    requires forall j :: 0 <= j < |s| ==> s[j] != p[k]
    ensures !Contains(s, p)
  {
    ContainsIsExists(s, p);
    forall j: nat | j + |p| <= |s|
      ensures !OccursAt(s, p, j)
    {
      assert s[j..j + |p|][k] == s[j + k] != p[k];
    }
  }

  /** Every string contains itself (`"x".includes("x")`). */
  lemma ContainsSelf(s: string)
    ensures Contains(s, s)
  {
    ContainsIsExists(s, s);
    assert OccursAt(s, s, 0);
  }

  // ---------------------------------------------------------------------------
  // Decimal digits

  predicate IsDigit(c: char)
  {
    '0' <= c <= '9'
  }

  predicate AllDigits(s: string)
  {
    forall i :: 0 <= i < |s| ==> IsDigit(s[i])
  }

  function DigitChar(d: nat): (c: char)
    requires d < 10
    ensures IsDigit(c) && c as int - '0' as int == d
  {
    ('0' as int + d) as char
  }

  /** The value of a string of decimal digits, most significant first. */
  function DigitsValue(s: string): nat
    requires AllDigits(s)
  {
    if s == [] then 0
    else DigitsValue(s[..|s| - 1]) * 10 + (s[|s| - 1] as int - '0' as int)
  }

  /** The decimal rendering of a natural number, as `${n}` produces it. */
  function NatToString(n: nat): (r: string)
    ensures 1 <= |r| && AllDigits(r)
    ensures DigitsValue(r) == n
    ensures |r| > 1 ==> r[0] != '0'
  {
    if n < 10 then [DigitChar(n)]
    else
      var prefix := NatToString(n / 10);
      assert (prefix + [DigitChar(n % 10)])[..|prefix|] == prefix;
      prefix + [DigitChar(n % 10)]
  }

  /** The decimal rendering of an integer, with a leading `-` when negative. */
  function IntToString(n: int): (r: string)
    ensures 1 <= |r|
    ensures n >= 0 <==> r[0] != '-'
  {
    if n < 0 then "-" + NatToString(-n) else NatToString(n)
  }

  /**
   * JavaScript's white space and line terminators: what `\s` matches in a
   * regular expression and what `parseInt` skips before the number.
   */
  predicate IsWhitespace(c: char)
  {
    || c == ' ' || c == '\t' || c == '\n' || c == '\r' || c == '\U{000B}' || c == '\U{000C}'
    || c == '\U{00A0}' || c == '\U{1680}' || ('\U{2000}' <= c <= '\U{200A}')
    || c == '\U{2028}' || c == '\U{2029}' || c == '\U{202F}' || c == '\U{205F}'
    || c == '\U{3000}' || c == '\U{FEFF}'
  }

  /** The longest prefix of `s` made of decimal digits. */
  function DigitPrefix(s: string): (r: string)
    ensures AllDigits(r) && r <= s
    ensures |r| < |s| ==> !IsDigit(s[|r|])
  {
    if s == [] || !IsDigit(s[0]) then []
    else [s[0]] + DigitPrefix(s[1..])
  }

  /** Leading whitespace removed, as `parseInt` does first. */
  function TrimStart(s: string): (r: string)
    ensures r == [] || !IsWhitespace(r[0])
    ensures |r| <= |s| && r == s[|s| - |r|..]
  {
    if s != [] && IsWhitespace(s[0]) then TrimStart(s[1..]) else s
  }

  /**
   * `parseInt(s)` read as decimal: optional leading whitespace and sign, then
   * the longest run of digits; `None` stands for `NaN` (no digit at all).
   * The callers' strings come from the extracted digit group and from a
   * `type="number"` input, where a `0x` prefix, which `parseInt` with no
   * radix would read as hexadecimal, cannot occur.
   */
  function ParseInt(s: string): Option<int>
  {
    var t := TrimStart(s);
    var negative := t != [] && t[0] == '-';
    var body := if t != [] && (t[0] == '-' || t[0] == '+') then t[1..] else t;
    var digits := DigitPrefix(body);
    var magnitude: int := DigitsValue(digits);
    if digits == [] then None
    else if negative then Some(-magnitude)
    else Some(magnitude)
  }

  lemma {:induction false} DigitPrefixOfDigits(s: string, rest: string)
    requires AllDigits(s)
    requires rest == [] || !IsDigit(rest[0])
    ensures DigitPrefix(s + rest) == s
  {
    if s != [] {
      assert (s + rest)[1..] == s[1..] + rest;
      DigitPrefixOfDigits(s[1..], rest);
    } else {
      assert s + rest == rest;
    }
  }

  lemma TrimStartOfNonBlank(s: string)
    requires s != [] && !IsWhitespace(s[0])
    ensures TrimStart(s) == s
  {
  }

  lemma DigitPrefixOfAllDigits(d: string)
    requires AllDigits(d)
    ensures DigitPrefix(d) == d
  {
    DigitPrefixOfDigits(d, []);
    assert d + [] == d;
  }

  /** `parseInt` of a non-empty digit string is its value. */
  lemma ParseIntOfDigits(d: string)
    requires d != [] && AllDigits(d)
    ensures ParseInt(d) == Some(DigitsValue(d))
  {
    TrimStartOfNonBlank(d);
    DigitPrefixOfAllDigits(d);
  }

  /** `parseInt` of a minus sign and a non-empty digit string is the negated value. */
  lemma ParseIntOfMinus(m: string)
    requires |m| >= 2 && m[0] == '-' && AllDigits(m[1..])
    ensures var v: int := DigitsValue(m[1..]); ParseInt(m) == Some(-v)
  {
    TrimStartOfNonBlank(m);
    DigitPrefixOfAllDigits(m[1..]);
  }

  /** Reading back the rendering of an integer with `parseInt` gives the integer. */
  lemma ParseIntOfIntToString(n: int)
    ensures ParseInt(IntToString(n)) == Some(n)
  {
    if n < 0 {
      var m := IntToString(n);
      assert m[1..] == NatToString(-n);
      ParseIntOfMinus(m);
    } else {
      ParseIntOfDigits(NatToString(n));
    }
  }
}
