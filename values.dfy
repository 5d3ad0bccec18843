/** Runtime values shared by both pipelines (`Valor` in roulang/src/ast.rs and
    src/ast.rs), the 64-bit integer range, and the text form of a value. */
module Values {
  import opened Results
  import opened Text

  const I64Min: int := -0x8000_0000_0000_0000
  const I64Max: int := 0x7FFF_FFFF_FFFF_FFFF

  predicate InI64(x: int)
  {
    I64Min <= x <= I64Max
  }

  /** Rust's `i64`. */
  type i64 = x: int | InI64(x)

  type u64 = x: int | 0 <= x < 0x1_0000_0000_0000_0000

  /** Rust's `f64`, kept as its IEEE-754 bit pattern. Only the zero test is
      interpreted; everything else about floats comes from `FloatOps`. */
  datatype F64 = F64(bits: u64)

  /** What the pattern `0.0` matches: positive and negative zero. */
  predicate IsZeroF64(f: F64)
  {
    f.bits == 0 || f.bits == 0x8000_0000_0000_0000
  }

  /** The floating-point operations of the Rust runtime, taken as given:
      `x as f64`, the four IEEE operations, `str::parse::<f64>` and
      `f64::to_string`. Every property of the model holds for all of them. */
  datatype FloatOps = FloatOps(
    widen: i64 -> F64,
    add: (F64, F64) -> F64,
    sub: (F64, F64) -> F64,
    mul: (F64, F64) -> F64,
    div: (F64, F64) -> F64,
    parse: string -> Option<F64>,
    show: F64 -> string)

  /** A runtime value (`Valor`). */
  datatype Valor = Int(i: i64) | Float(f: F64) | Char(c: char) | String(s: string)

  predicate IsNumeric(v: Valor)
  {
    v.Int? || v.Float?
  }

  /** The reasons the Rust program panics instead of returning an error. */
  datatype Panic =
    | ArithmeticOverflow  // i64 `+`, `-`, `*` or `%` overflowing (debug build)
    | SliceOutOfRange     // `&t[1..t.len()-1]` on a text that is a single quote

  function DigitValue(c: char): nat
    requires IsDigit(c)
  {
    (c as int) - ('0' as int)
  }

  function DigitChar(d: nat): (c: char)
    requires d < 10
    ensures IsDigit(c) && DigitValue(c) == d
  {
    (('0' as int) + d) as char
  }

  /** The number a non-empty run of decimal digits denotes. */
  function DigitsValue(d: string): nat
    requires AllDigits(d)
  {
    if d == [] then 0 else DigitsValue(d[..|d| - 1]) * 10 + DigitValue(d[|d| - 1])
  }

  /** Decimal digits of a natural number, without leading zeros. */
  function NatToDecimal(n: nat): (r: string)
    ensures r != [] && AllDigits(r)
    ensures DigitsValue(r) == n
  {
    if n < 10 then
      [DigitChar(n)]
    else
      var r := NatToDecimal(n / 10) + [DigitChar(n % 10)];
      assert r[..|r| - 1] == NatToDecimal(n / 10);
      r
  }

  /** `i64::to_string`: an optional minus sign followed by decimal digits. */
  function IntToDecimal(x: int): (r: string)
    ensures r != [] && (r[0] == '-' <==> x < 0)
    ensures forall k | 0 < k < |r| :: IsDigit(r[k])
    ensures x >= 0 ==> AllDigits(r)
  {
    if x < 0 then "-" + NatToDecimal(-x) else NatToDecimal(x)
  }

  /** `str::parse::<i64>`: an optional `+` or `-`, then one or more ASCII
      digits, whose value must fit in 64 bits. */
  function ParseI64(s: string): (r: Option<i64>)
    ensures r.Some? ==> s != [] && (IsDigit(s[0]) || ((s[0] == '-' || s[0] == '+') && |s| >= 2))
    ensures r.Some? ==> forall k | 0 < k < |s| :: IsDigit(s[k])
  {
    var negative := s != [] && s[0] == '-';
    var digits := if s != [] && (s[0] == '-' || s[0] == '+') then s[1..] else s;
    if digits == [] || !AllDigits(digits) then None
    else
      var magnitude: int := DigitsValue(digits);
      var v := if negative then -magnitude else magnitude;
      if InI64(v) then Some(v) else None
  }

  /** Printing an integer and parsing it back gives the integer. */
  lemma DecimalRoundTrip(x: i64)
    ensures ParseI64(IntToDecimal(x)) == Some(x)
  {
    if x < 0 {
      assert IntToDecimal(x)[1..] == NatToDecimal(-(x as int));
    }
  }

  /** Every text made of an optional `+` or `-` and one or more digits is
      accepted exactly when its value fits in 64 bits, and then gives that
      value: with the shape `ParseI64`'s own contract requires of an
      accepted text, this is both directions of `parse::<i64>`. */
  lemma ParseI64Accepts(sign: string, d: string)
    requires sign == "" || sign == "+" || sign == "-"
    requires d != [] && AllDigits(d)
    ensures var n: int := DigitsValue(d); var v := if sign == "-" then -n else n;
      ParseI64(sign + d) == if InI64(v) then Some(v) else None
  {
    var s := sign + d;
    if sign == "" {
      assert s == d && IsDigit(s[0]);
    } else {
      assert s[0] == sign[0] && s[1..] == d;
    }
  }

  /** A leading zero does not change the number digits denote. */
  lemma {:induction false} DigitsLeadingZero(d: string)
    requires AllDigits(d)
    ensures AllDigits("0" + d) && DigitsValue("0" + d) == DigitsValue(d)
    decreases |d|
  {
    var z := "0" + d;
    assert AllDigits(z) by {
      forall k | 0 <= k < |z| ensures IsDigit(z[k]) {
        if k > 0 { assert z[k] == d[k - 1]; }
      }
    }
    if d != [] {
      var p := d[..|d| - 1];
      assert AllDigits(p) by {
        forall k | 0 <= k < |p| ensures IsDigit(p[k]) { assert p[k] == d[k]; }
      }
      DigitsLeadingZero(p);
      assert z[..|z| - 1] == "0" + p;
      assert z[|z| - 1] == d[|d| - 1];
    }
  }

  /** `parse::<i64>` ignores a `+` sign and leading zeros: `+5` and `007`
      give the same result as `5` and `7`. */
  lemma ParseI64SignAndZeros(d: string)
    requires d != [] && AllDigits(d)
    ensures ParseI64("+" + d) == ParseI64(d)
    ensures ParseI64("0" + d) == ParseI64(d)
  {
    ParseI64Accepts("+", d);
    ParseI64Accepts("", d);
    DigitsLeadingZero(d);
    ParseI64Accepts("", "0" + d);
    assert "" + d == d && "" + ("0" + d) == "0" + d;
  }

  /** `valor_a_string`: the text `imprimir` shows for a value. */
  function ValorAString(v: Valor, fo: FloatOps): string
  {
    match v
    case Int(i) => IntToDecimal(i)
    case Float(f) => fo.show(f)
    case Char(c) => [c]
    case String(s) => s
  }

  /** An integer shows as its decimal digits, which parse back to it; a
      character as itself; a string as its contents. */
  lemma ValorAStringSpec(v: Valor, fo: FloatOps)
    ensures var r := ValorAString(v, fo);
      && (v.Int? ==> ParseI64(r) == Some(v.i))
      && (v.Int? ==> r != [] && forall k | 0 <= k < |r| :: IsDigit(r[k]) || (k == 0 && r[k] == '-'))
      && (v.Char? ==> |r| == 1 && r[0] == v.c)
      && (v.String? ==> r == v.s)
      && (v.Float? ==> r == fo.show(v.f))
  {
    if v.Int? {
      DecimalRoundTrip(v.i);
    }
  }
}
