/** The metric record exchanged between agent and server, Go's `int64`, and the base-10
    text form of a counter (`strconv.FormatInt` / `strconv.ParseInt` with base 10). */
module Models {
  import opened Wrappers

  const MinInt64: int := -0x8000_0000_0000_0000
  const MaxInt64: int := 0x7FFF_FFFF_FFFF_FFFF
  const Two64: int := 0x1_0000_0000_0000_0000

  newtype int64 = x: int | -0x8000_0000_0000_0000 <= x < 0x8000_0000_0000_0000

  predicate InInt64Range(x: int) { MinInt64 <= x <= MaxInt64 }

  /** Go's `a + b` on `int64`: the sum reduced into the int64 range (two's complement). */
  function WrapAdd(a: int64, b: int64): (r: int64)
    ensures (r as int - (a as int + b as int)) % Two64 == 0
    ensures MinInt64 <= a as int + b as int <= MaxInt64 ==> r as int == a as int + b as int
  {
    var s := a as int + b as int;
    if s > MaxInt64 then (s - Two64) as int64
    else if s < MinInt64 then (s + Two64) as int64
    else s as int64
  }

  const GaugeType: string := "gauge"
  const CounterType: string := "counter"

  /** `models.Metrics`: `Delta` and `Value` are pointers in Go, `None` standing for nil.
      Gauge values are opaque (`real`): they are only stored and copied. */
  datatype Metrics = Metrics(id: string, mtype: string, delta: Option<int64>, value: Option<real>)

  function GaugeRecord(id: string, v: real): Metrics { Metrics(id, GaugeType, None, Some(v)) }

  function CounterRecord(id: string, d: int64): Metrics { Metrics(id, CounterType, Some(d), None) }

  // ---------------------------------------------------------------------------------------
  // Decimal text

  predicate IsDigit(c: char) { '0' <= c <= '9' }

  predicate AllDigits(s: string) { forall i :: 0 <= i < |s| ==> IsDigit(s[i]) }

  function DigitChar(d: nat): (c: char)
    requires d < 10
    ensures IsDigit(c) && c as int - '0' as int == d
  {
    ('0' as int + d) as char
  }

  /** The shortest decimal numeral of `n`. */
  function Digits(n: nat): (s: string)
    decreases n
  {
    if n < 10 then [DigitChar(n)] else Digits(n / 10) + [DigitChar(n % 10)]
  }

  /** The number a string of decimal digits denotes, read most significant digit first. */
  function DigitsValue(s: string): nat
    requires AllDigits(s)
    decreases |s|
  {
    if s == [] then 0 else DigitsValue(s[..|s| - 1]) * 10 + (s[|s| - 1] as int - '0' as int)
  }

  /** `models.FormatCounterValue`, i.e. `strconv.FormatInt(value, 10)`. */
  function FormatCounterValue(v: int64): string
  {
    if v < 0 then "-" + Digits(-(v as int)) else Digits(v as int)
  }

  lemma {:induction false} DigitsShape(n: nat)
    ensures |Digits(n)| >= 1 && AllDigits(Digits(n))
    ensures DigitsValue(Digits(n)) == n
    ensures Digits(n)[0] == '0' <==> n == 0
    decreases n
  {
    if n >= 10 {
      DigitsShape(n / 10);
      var p := Digits(n / 10);
      var s := p + [DigitChar(n % 10)];
      assert s[..|s| - 1] == p;
      assert s[0] == p[0];
    }
  }

  /** The text of a counter: "0" for zero, a leading '-' exactly for negative values,
      then decimal digits without a leading zero. */
  lemma FormatCounterValueShape(v: int64)
    ensures FormatCounterValue(0) == "0"
    ensures var s := FormatCounterValue(v);
      |s| >= 1 && (s[0] == '-' <==> v < 0)
      && var digits := if v < 0 then s[1..] else s;
      |digits| >= 1 && AllDigits(digits) && (digits[0] == '0' ==> v == 0)
  {
    DigitsShape(if v < 0 then -(v as int) else v as int);
    var s := FormatCounterValue(v);
    if v < 0 {
      assert s[1..] == Digits(-(v as int));
    }
  }

  // ---------------------------------------------------------------------------------------
  // strconv.ParseInt(s, 10, 64)

  datatype NumError = ErrSyntax | ErrRange

  /** An optional leading sign followed by at least one decimal digit. */
  predicate IsDecimalNumeral(s: string)
  {
    var u := if s != [] && (s[0] == '+' || s[0] == '-') then s[1..] else s;
    u != [] && AllDigits(u)
  }

  /** `strconv.ParseInt(s, 10, 64)`: an optional sign and at least one digit, whose value must
      fit in an int64. */
  function ParseInt(s: string): (r: Result<int64, NumError>)
    ensures r.Success? ==> IsDecimalNumeral(s)
    ensures r.Failure? && IsDecimalNumeral(s) ==> r.error == ErrRange
    ensures r.Success? && s[0] == '-' ==> r.value <= 0
    ensures r.Success? && s[0] != '-' ==> r.value >= 0
  {
    if s == [] then Failure(ErrSyntax)
    else
      var u := if s[0] == '+' || s[0] == '-' then s[1..] else s;
      if u == [] || !AllDigits(u) then Failure(ErrSyntax)
      else
        var mag: int := DigitsValue(u);
        var v := if s[0] == '-' then -mag else mag;
        if MinInt64 <= v <= MaxInt64 then Success(v as int64) else Failure(ErrRange)
  }

  /** Parsing the text of a counter as a base-10 int64 gives the counter back. */
  lemma ParseFormatRoundTrip(v: int64)
    ensures ParseInt(FormatCounterValue(v)) == Success(v)
  {
    var s := FormatCounterValue(v);
    if v < 0 {
      DigitsShape(-(v as int));
      assert s[1..] == Digits(-(v as int));
    } else {
      DigitsShape(v as int);
    }
  }

  /** Texts the update handlers must refuse as counters ("42.2", "test", ""). */
  lemma ParseIntRejectsNonIntegers()
    ensures ParseInt("42.2").Failure? && ParseInt("-42.2").Failure?
    ensures ParseInt("test").Failure? && ParseInt("").Failure? && ParseInt("-").Failure?
    ensures ParseInt("42") == Success(42) && ParseInt("-42") == Success(-42)
  {
    assert !IsDigit('.') && !IsDigit('t');
    assert "42"[..1] == "4";
    assert "-42"[1..] == "42";
  }
}
