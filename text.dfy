/**
 * The string operations of Go's standard library that the adapter and the archiver rely on:
 * `bytes.Contains`, `bytes.ReplaceAll`, `strconv.Itoa`, `strings.ToLower` and `filepath.ToSlash`.
 */
module Text {

  /** `t` occurs in `s` starting at index `i`. */
  predicate OccursAt(s: string, t: string, i: int)
  {
    0 <= i <= |s| - |t| && s[i..i + |t|] == t
  }

  /** `bytes.Contains(s, t)`: `t` occurs somewhere in `s`. */
  predicate Contains(s: string, t: string)
  {
    exists i | 0 <= i <= |s| - |t| :: OccursAt(s, t, i)
  }

  /**
   * `bytes.ReplaceAll(s, token, value)`: every non-overlapping occurrence of `token`, scanned from the
   * left, replaced by `value`. An empty `token` matches before every character and at the end.
   */
  function ReplaceAll(s: string, token: string, value: string): string
    decreases |s|
  {
    if |token| == 0 then
      if s == [] then value else value + [s[0]] + ReplaceAll(s[1..], token, value)
    else if |s| < |token| then s
    else if s[..|token|] == token then value + ReplaceAll(s[|token|..], token, value)
    else [s[0]] + ReplaceAll(s[1..], token, value)
  }

  /** A token absent from `s` is absent from every suffix of `s`. */
  lemma ContainsShift(s: string, t: string)
    requires |s| > 0 && !Contains(s, t)
    ensures !Contains(s[1..], t)
  {
    if Contains(s[1..], t) {
      var i :| 0 <= i <= |s[1..]| - |t| && OccursAt(s[1..], t, i);
      assert s[i + 1..i + 1 + |t|] == s[1..][i..i + |t|];
      assert OccursAt(s, t, i + 1);
    }
  }

  /** A string in which `token` does not occur comes out of ReplaceAll unchanged. */
  lemma {:induction false} ReplaceAllAbsent(s: string, token: string, value: string)
    requires |token| > 0 && !Contains(s, token)
    ensures ReplaceAll(s, token, value) == s
    decreases |s|
  {
    if |s| >= |token| {
      assert !OccursAt(s, token, 0);
      ContainsShift(s, token);
      ReplaceAllAbsent(s[1..], token, value);
    }
  }

  // ---- decimal numbers -------------------------------------------------------------------------

  predicate IsDigit(ch: char) { '0' <= ch <= '9' }

  predicate AllDigits(s: string) { forall i :: 0 <= i < |s| ==> IsDigit(s[i]) }

  function DigitChar(d: nat): (ch: char)
    requires d < 10
    ensures IsDigit(ch) && ch as int - '0' as int == d
  {
    ('0' as int + d) as char
  }

  /** The decimal digits of `n`, most significant first, without leading zeros. */
  function NatToDecimal(n: nat): (s: string)
    ensures |s| > 0 && AllDigits(s)
    ensures |s| > 1 ==> s[0] != '0'
    decreases n
  {
    if n < 10 then [DigitChar(n)] else NatToDecimal(n / 10) + [DigitChar(n % 10)]
  }

  /** `strconv.Itoa(n)`: the decimal form of `n`, with a leading '-' when it is negative. */
  function Itoa(n: int): (s: string)
  {
    if n < 0 then "-" + NatToDecimal(-n) else NatToDecimal(n)
  }

  /** The value of a string of decimal digits. */
  function DecimalValue(s: string): nat
    requires AllDigits(s)
  {
    if s == [] then 0 else DecimalValue(s[..|s| - 1]) * 10 + (s[|s| - 1] as int - '0' as int)
  }

  /** `strconv.Atoi` on the strings Itoa produces: an optional '-' and decimal digits. */
  function Atoi(s: string): int
    requires |s| > 0 && (if s[0] == '-' then AllDigits(s[1..]) else AllDigits(s))
  {
    if s[0] == '-' then 0 - DecimalValue(s[1..]) else DecimalValue(s)
  }

  lemma {:induction false} DecimalRoundTrip(n: nat)
    ensures DecimalValue(NatToDecimal(n)) == n
    decreases n
  {
    if n >= 10 {
      var s := NatToDecimal(n);
      assert s[..|s| - 1] == NatToDecimal(n / 10);
      DecimalRoundTrip(n / 10);
    }
  }

  /** Itoa is never empty, and reading its digits back gives the number it was given. */
  lemma ItoaRoundTrip(n: int)
    ensures |Itoa(n)| > 0
    ensures Itoa(n)[0] == '-' <==> n < 0
    ensures Atoi(Itoa(n)) == n
  {
    if n < 0 {
      assert Itoa(n)[1..] == NatToDecimal(-n);
      DecimalRoundTrip(-n);
    } else {
      DecimalRoundTrip(n);
    }
  }

  // ---- case and separators ---------------------------------------------------------------------

  predicate IsUpper(ch: char) { 'A' <= ch <= 'Z' }

  function LowerChar(ch: char): char
  {
    if IsUpper(ch) then (ch as int + 32) as char else ch
  }

  /** `strings.ToLower`, on the ASCII letters. */
  function ToLower(s: string): (r: string)
    ensures |r| == |s|
    ensures forall i :: 0 <= i < |s| ==> r[i] == LowerChar(s[i])
  {
    seq(|s|, i requires 0 <= i < |s| => LowerChar(s[i]))
  }

  /** Lower-cased text holds no upper-case letter, so lowering it again changes nothing. */
  lemma ToLowerIdempotent(s: string)
    ensures forall i :: 0 <= i < |s| ==> !IsUpper(ToLower(s)[i])
    ensures ToLower(ToLower(s)) == ToLower(s)
  {
  }

  /** `filepath.ToSlash` on a platform whose separator is `sep`: every `sep` becomes '/'. */
  function ToSlash(s: string, sep: char): (r: string)
    ensures |r| == |s|
    ensures forall i :: 0 <= i < |s| ==> r[i] == (if s[i] == sep then '/' else s[i])
  {
    seq(|s|, i requires 0 <= i < |s| => if s[i] == sep then '/' else s[i])
  }

  /** After ToSlash no platform separator other than '/' is left. */
  predicate Slashed(s: string, sep: char)
  {
    sep != '/' ==> forall i :: 0 <= i < |s| ==> s[i] != sep
  }

  /** ToSlash leaves no platform separator behind, and a slashed string is its own ToSlash. */
  lemma ToSlashSlashed(s: string, sep: char)
    ensures Slashed(ToSlash(s, sep), sep)
    ensures Slashed(s, sep) ==> ToSlash(s, sep) == s
  {
  }
}
