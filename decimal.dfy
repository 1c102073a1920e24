/**
 * Decimal integers as the routing code reads and writes them: Go's
 * `strconv.Atoi` on a 64-bit platform (an optional sign, then one or more
 * ASCII digits, failing outside the range of `int`) and the `%d` verb of
 * `fmt`.
 */
module Decimal {
  import opened Wrappers

  const MinInt: int := -0x8000_0000_0000_0000
  const MaxInt: int := 0x7FFF_FFFF_FFFF_FFFF

  /** Go's `int` on a 64-bit platform. */
  type Int64 = n: int | MinInt <= n <= MaxInt

  predicate IsDigit(c: char) {
    '0' <= c <= '9'
  }

  predicate AllDigits(s: string) {
    forall i :: 0 <= i < |s| ==> IsDigit(s[i])
  }

  function DigitValue(c: char): (d: nat)
    requires IsDigit(c)
    ensures d < 10
  {
    c as int - '0' as int
  }

  function DigitChar(d: nat): (c: char)
    requires d < 10
    ensures IsDigit(c) && DigitValue(c) == d
  {
    ('0' as int + d) as char
  }

  /** The number a string of digits denotes, most significant digit first. */
  function DigitsValue(ds: string): nat
    requires AllDigits(ds)
  {
    if ds == [] then 0 else DigitsValue(ds[..|ds| - 1]) * 10 + DigitValue(ds[|ds| - 1])
  }

  lemma DigitsValueSnoc(ds: string, c: char)
    requires AllDigits(ds) && IsDigit(c)
    ensures AllDigits(ds + [c]) && DigitsValue(ds + [c]) == DigitsValue(ds) * 10 + DigitValue(c)
  {
    assert (ds + [c])[..|ds|] == ds;
  }

  /** `%d` of a natural number: its digits, without leading zeros. */
  function FormatNat(n: nat): (s: string)
    ensures s != [] && AllDigits(s)
    ensures DigitsValue(s) == n
    ensures s[0] == '0' ==> s == "0"
  {
    if n < 10 then
      [DigitChar(n)]
    else
      var prefix := FormatNat(n / 10);
      DigitsValueSnoc(prefix, DigitChar(n % 10));
      prefix + [DigitChar(n % 10)]
  }

  /** `%d` of an integer. */
  function FormatInt(n: int): string {
    if n < 0 then "-" + FormatNat(-n) else FormatNat(n)
  }

  datatype NumError = ErrSyntax | ErrRange

  /** The largest `uint64`, the bound of the unsigned reading under `Atoi`. */
  const MaxUint64: int := 0xFFFF_FFFF_FFFF_FFFF

  /**
   * The unsigned reading of the characters after the sign, left to right
   * from the value `acc` read so far: the first non-digit is a syntax
   * error and the first digit that takes the value past `MaxUint64` is a
   * range error, whichever comes first.
   */
  function ParseDigits(s: string, acc: nat): Result<nat, NumError>
    decreases |s|
  {
    if s == [] then Success(acc)
    else if !IsDigit(s[0]) then Failure(ErrSyntax)
    else if acc * 10 + DigitValue(s[0]) > MaxUint64 then Failure(ErrRange)
    else ParseDigits(s[1..], acc * 10 + DigitValue(s[0]))
  }

  /** `strconv.Atoi(s)`: an optional sign, then the unsigned reading, then the range of `int`. */
  function Atoi(s: string): Result<Int64, NumError> {
    if s == [] then Failure(ErrSyntax)
    else
      var digits := if s[0] == '+' || s[0] == '-' then s[1..] else s;
      if digits == [] then Failure(ErrSyntax)
      else
        match ParseDigits(digits, 0)
        case Failure(e) => Failure(e)
        case Success(u) =>
          var v: int := if s[0] == '-' then -(u as int) else u;
          if MinInt <= v <= MaxInt then Success(v) else Failure(ErrRange)
  }

  /** Appending digits never makes the value smaller. */
  lemma {:induction false} DigitsValueMonotone(ds: string, more: string)
    requires AllDigits(ds) && AllDigits(more)
    ensures AllDigits(ds + more) && DigitsValue(ds + more) >= DigitsValue(ds)
    decreases |more|
  {
    if more != [] {
      var pre := more[..|more| - 1];
      DigitsValueMonotone(ds, pre);
      DigitsValueSnoc(ds + pre, more[|more| - 1]);
      assert ds + pre + [more[|more| - 1]] == ds + more;
    } else {
      assert ds + more == ds;
    }
  }

  /**
   * From the digits `done` already read, the rest of a run of digits is
   * read to the value of the whole run, or to a range error when that
   * value does not fit in a `uint64`.
   */
  lemma {:induction false} ParseDigitsRun(done: string, ds: string)
    requires AllDigits(done) && DigitsValue(done) <= MaxUint64 && AllDigits(ds)
    ensures AllDigits(done + ds)
    ensures ParseDigits(ds, DigitsValue(done)) ==
      if DigitsValue(done + ds) <= MaxUint64 then Success(DigitsValue(done + ds)) else Failure(ErrRange)
    decreases |ds|
  {
    DigitsValueMonotone(done, ds);
    if ds == [] {
      assert done + ds == done;
    } else {
      var next := done + [ds[0]];
      DigitsValueSnoc(done, ds[0]);
      assert next + ds[1..] == done + ds;
      if DigitsValue(next) <= MaxUint64 {
        ParseDigitsRun(next, ds[1..]);
      } else {
        DigitsValueMonotone(next, ds[1..]);
      }
    }
  }

  /**
   * At the first non-digit after a run of digits, the reading stops with
   * a syntax error, unless the run already overflowed a `uint64`, which
   * was reported as a range error before the non-digit was reached.
   */
  lemma {:induction false} ParseDigitsStop(done: string, ds: string, c: char, rest: string)
    requires AllDigits(done) && DigitsValue(done) <= MaxUint64 && AllDigits(ds) && !IsDigit(c)
    ensures AllDigits(done + ds)
    ensures ParseDigits(ds + [c] + rest, DigitsValue(done)) ==
      if DigitsValue(done + ds) <= MaxUint64 then Failure(ErrSyntax) else Failure(ErrRange)
    decreases |ds|
  {
    DigitsValueMonotone(done, ds);
    if ds == [] {
      assert done + ds == done;
      assert (ds + [c] + rest)[0] == c;
    } else {
      var next := done + [ds[0]];
      DigitsValueSnoc(done, ds[0]);
      assert next + ds[1..] == done + ds;
      assert (ds + [c] + rest)[0] == ds[0];
      assert (ds + [c] + rest)[1..] == ds[1..] + [c] + rest;
      if DigitsValue(next) <= MaxUint64 {
        ParseDigitsStop(next, ds[1..], c, rest);
      } else {
        DigitsValueMonotone(next, ds[1..]);
      }
    }
  }

  /** A whole run of digits reads to its value, or to a range error past `MaxUint64`. */
  lemma ParseDigitsAll(ds: string)
    requires AllDigits(ds)
    ensures ParseDigits(ds, 0) == if DigitsValue(ds) <= MaxUint64 then Success(DigitsValue(ds)) else Failure(ErrRange)
  {
    assert [] + ds == ds;
    ParseDigitsRun([], ds);
  }

  /** An optional sign and a non-empty run of digits read as the signed value, if it fits in an `int`. */
  lemma AtoiDigits(sign: string, ds: string)
    requires sign == [] || sign == ['+'] || sign == ['-']
    requires ds != [] && AllDigits(ds)
    ensures var v: int := if sign == ['-'] then -(DigitsValue(ds) as int) else DigitsValue(ds);
      Atoi(sign + ds) == if MinInt <= v <= MaxInt then Success(v) else Failure(ErrRange)
  {
    var s := sign + ds;
    var digits := if s[0] == '+' || s[0] == '-' then s[1..] else s;
    if sign == [] {
      assert s == ds && IsDigit(s[0]);
    } else {
      assert s[0] == sign[0] && s[1..] == ds;
    }
    assert digits == ds && (s[0] == '-' <==> sign == ['-']);
    ParseDigitsAll(ds);
  }

  /**
   * When the characters after the sign stop being digits, `Atoi` reports
   * the first problem met reading left to right: a range error if the
   * digits before the stop already overflow a `uint64`, and a syntax
   * error otherwise.
   */
  lemma AtoiStops(sign: string, ds: string, c: char, rest: string)
    requires sign == [] || sign == ['+'] || sign == ['-']
    requires AllDigits(ds) && !IsDigit(c)
    requires sign == [] && ds == [] ==> c != '+' && c != '-'
    ensures Atoi(sign + ds + [c] + rest) ==
      if DigitsValue(ds) <= MaxUint64 then Failure(ErrSyntax) else Failure(ErrRange)
  {
    var s := sign + ds + [c] + rest;
    var digits := ds + [c] + rest;
    if sign == [] {
      assert s == digits;
      if ds == [] {
        assert s[0] == c;
      } else {
        assert s[0] == ds[0];
      }
    } else {
      assert s[0] == sign[0] && s[1..] == digits;
    }
    assert [] + ds == ds;
    ParseDigitsStop([], ds, c, rest);
  }

  /**
   * The order matters: `%d` of a number past `MaxUint64` followed by an
   * `x` is a range error, reported before the `x` is reached, while for
   * any smaller number the `x` gives a syntax error.
   */
  lemma AtoiOverflowBeforeSyntax(n: nat)
    ensures Atoi(FormatNat(n) + "x") == if n <= MaxUint64 then Failure(ErrSyntax) else Failure(ErrRange)
  {
    var ds := FormatNat(n);
    assert [] + ds + ['x'] + [] == ds + "x";
    AtoiStops([], ds, 'x', []);
  }

  /**
   * Reading back what `%d` wrote gives the same integer when it fits in
   * an `int`, and a range error otherwise.
   */
  lemma AtoiFormatInt(n: int)
    ensures Atoi(FormatInt(n)) == if MinInt <= n <= MaxInt then Success(n) else Failure(ErrRange)
  {
    var s := FormatInt(n);
    if n < 0 {
      AtoiDigits(['-'], FormatNat(-n));
    } else {
      AtoiDigits([], FormatNat(n));
      assert [] + FormatNat(n) == s;
    }
  }

  /** The form `%d` writes: an optional `-`, then digits without leading zeros, and no `-0`. */
  predicate IsCanonical(s: string) {
    var ds := if s != [] && s[0] == '-' then s[1..] else s;
    && ds != [] && AllDigits(ds)
    && (ds[0] == '0' ==> s == "0")
  }

  lemma DivModTen(a: nat, d: nat)
    requires d < 10
    ensures (a * 10 + d) / 10 == a && (a * 10 + d) % 10 == d
  {
  }

  lemma DigitCharValue(c: char)
    requires IsDigit(c)
    ensures DigitChar(DigitValue(c)) == c
  {
  }

  lemma {:induction false} DigitsValuePositive(ds: string)
    requires ds != [] && AllDigits(ds) && ds[0] != '0'
    ensures DigitsValue(ds) >= 1
  {
    if |ds| > 1 {
      var pre := ds[..|ds| - 1];
      assert pre[0] == ds[0];
      DigitsValuePositive(pre);
    } else {
      assert ds[..0] == [];
      assert DigitsValue(ds) == DigitValue(ds[0]);
    }
  }

  lemma {:induction false} FormatNatDigitsValue(ds: string)
    requires ds != [] && AllDigits(ds) && (ds[0] == '0' ==> ds == "0")
    ensures FormatNat(DigitsValue(ds)) == ds
    decreases |ds|
  {
    var v := DigitsValue(ds);
    var last := ds[|ds| - 1];
    if |ds| == 1 {
      assert ds[..0] == [];
      assert DigitsValue(ds[..0]) == 0;
      assert v == DigitsValue(ds[..0]) * 10 + DigitValue(last);
      DigitCharValue(last);
      assert ds == [last];
    } else {
      var pre := ds[..|ds| - 1];
      assert pre[0] == ds[0];
      assert ds != "0" by { assert |ds| != |"0"|; }
      DigitsValuePositive(pre);
      FormatNatDigitsValue(pre);
      assert v == DigitsValue(pre) * 10 + DigitValue(last);
      DivModTen(DigitsValue(pre), DigitValue(last));
      assert v / 10 == DigitsValue(pre) && v % 10 == DigitValue(last);
      DigitCharValue(last);
      assert pre + [last] == ds;
    }
  }

  /**
   * On the strings `%d` can write, Atoi is its exact inverse: a canonical
   * string that parses is the rendering of the integer it parses to.
   */
  lemma FormatIntAtoi(s: string)
    requires IsCanonical(s) && Atoi(s).Success?
    ensures FormatInt(Atoi(s).value) == s
  {
    if s[0] == '-' {
      var ds := s[1..];
      assert ['-'] + ds == s;
      AtoiDigits(['-'], ds);
      assert Atoi(s).value == -(DigitsValue(ds) as int);
      assert ds[0] != '0';
      DigitsValuePositive(ds);
      FormatNatDigitsValue(ds);
      assert FormatInt(Atoi(s).value) == "-" + ds;
    } else {
      assert [] + s == s;
      AtoiDigits([], s);
      assert Atoi(s).value == DigitsValue(s);
      FormatNatDigitsValue(s);
    }
  }

  /** `%d` writes only digits and a leading minus sign, and at least one digit. */
  lemma FormatIntChars(n: int)
    ensures FormatInt(n) != []
    ensures forall i :: 0 <= i < |FormatInt(n)| ==> IsDigit(FormatInt(n)[i]) || (i == 0 && FormatInt(n)[i] == '-')
  {
    if n < 0 {
      var ds := FormatNat(-n);
      assert forall i :: 1 <= i < |FormatInt(n)| ==> FormatInt(n)[i] == ds[i - 1];
    }
  }
}
