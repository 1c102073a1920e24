/**
 * The two patterns the `device_vibrate` tool advertises in its argument
 * schema: `regexInt` (`^[0-9]*$`) for `id` and `motor`, and `regex10`
 * (`^(0(\.\d+)?|1(\.0+)?)$`) for `strength`. Both are anchored, and `\d`
 * is an ASCII digit.
 */
module Schema {
  import opened Wrappers
  import opened Decimal

  /** `regexInt`: any number of ASCII digits, the empty string included. */
  predicate MatchesRegexInt(s: string) {
    AllDigits(s)
  }

  predicate AllZeros(s: string) {
    forall i :: 0 <= i < |s| ==> s[i] == '0'
  }

  /** `regex10`: `0`, `0.` and digits, `1`, or `1.` and zeros. */
  predicate MatchesRegex10(s: string) {
    || s == "0"
    || (|s| >= 3 && s[0] == '0' && s[1] == '.' && AllDigits(s[2..]))
    || s == "1"
    || (|s| >= 3 && s[0] == '1' && s[1] == '.' && AllZeros(s[2..]))
  }

  /** A numeral with a single integer digit and an optional non-empty fraction. */
  predicate IsUnitNumeral(s: string) {
    || (|s| == 1 && IsDigit(s[0]))
    || (|s| >= 3 && IsDigit(s[0]) && s[1] == '.' && AllDigits(s[2..]))
  }

  /** The value of the fraction digits `ds` in `0.ds`. */
  function FractionValue(ds: string): real
    requires AllDigits(ds)
  {
    if ds == [] then 0.0 else (DigitValue(ds[0]) as real + FractionValue(ds[1..])) / 10.0
  }

  /** The value a unit numeral denotes. */
  function NumeralValue(s: string): real
    requires IsUnitNumeral(s)
  {
    DigitValue(s[0]) as real + if |s| == 1 then 0.0 else FractionValue(s[2..])
  }

  /** A fraction lies in [0, 1) and is zero exactly when all its digits are zeros. */
  lemma {:induction false} FractionBounds(ds: string)
    requires AllDigits(ds)
    ensures 0.0 <= FractionValue(ds) < 1.0
    ensures FractionValue(ds) == 0.0 <==> AllZeros(ds)
  {
    if ds != [] {
      var rest := ds[1..];
      FractionBounds(rest);
      assert AllZeros(ds) <==> ds[0] == '0' && AllZeros(rest) by {
        if ds[0] == '0' && AllZeros(rest) {
          forall i | 0 <= i < |ds| ensures ds[i] == '0' {
            if i > 0 { assert ds[i] == rest[i - 1]; }
          }
        }
      }
    }
  }

  /**
   * `regex10` accepts exactly the unit numerals whose value lies in the
   * closed interval [0, 1].
   */
  lemma Regex10Exact(s: string)
    ensures MatchesRegex10(s) <==> IsUnitNumeral(s) && 0.0 <= NumeralValue(s) <= 1.0
  {
    if |s| >= 3 && IsDigit(s[0]) && s[1] == '.' && AllDigits(s[2..]) {
      FractionBounds(s[2..]);
      assert AllZeros(s[2..]) ==> AllDigits(s[2..]);
    } else if |s| >= 3 && s[0] == '1' && s[1] == '.' && AllZeros(s[2..]) {
      assert AllDigits(s[2..]);
    }
  }

  /** `regexInt` accepts the rendering of an integer exactly when it is not negative. */
  lemma RegexIntFormatInt(n: int)
    ensures MatchesRegexInt(FormatInt(n)) <==> n >= 0
  {
    if n < 0 {
      assert FormatInt(n)[0] == '-';
    }
  }

  /**
   * A string `regexInt` accepts is read by Atoi with a syntax error only
   * when it is empty; otherwise as the number its digits denote, or with a
   * range error when that number exceeds the largest `int`.
   */
  lemma RegexIntAtoi(s: string)
    requires MatchesRegexInt(s)
    ensures s == [] ==> Atoi(s) == Failure(ErrSyntax)
    ensures s != [] ==> Atoi(s) == if DigitsValue(s) <= MaxInt then Success(DigitsValue(s)) else Failure(ErrRange)
  {
    if s != [] {
      assert [] + s == s;
      AtoiDigits([], s);
    }
  }
}
