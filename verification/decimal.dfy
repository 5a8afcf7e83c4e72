/** Decimal text for integers and reals: Go's `strconv.Atoi`, the `%d`
    verb, and the `%.2f` verb (on exact reals). */
module Decimal {
  import opened Wrappers

  /** Bounds of Go's 64-bit `int`, the result type of `strconv.Atoi`. */
  const MaxInt: int := 0x7fff_ffff_ffff_ffff
  const MinInt: int := -0x8000_0000_0000_0000

  predicate IsDigit(c: char) {
    '0' <= c <= '9'
  }

  predicate AllDigits(ds: string) {
    forall k :: 0 <= k < |ds| ==> IsDigit(ds[k])
  }

  function DigitChar(d: nat): (c: char)
    requires d < 10
    ensures IsDigit(c) && c as int - '0' as int == d
  {
    ('0' as int + d) as char
  }

  /** The number a run of decimal digits denotes (most significant first). */
  function DigitsValue(ds: string): nat
    requires AllDigits(ds)
    decreases |ds|
  {
    if ds == [] then 0
    else DigitsValue(ds[..|ds| - 1]) * 10 + (ds[|ds| - 1] as int - '0' as int)
  }

  /** `%d` of a non-negative integer: shortest decimal text, no leading zero. */
  function NatToString(n: nat): (r: string)
    ensures |r| > 0 && AllDigits(r)
    ensures DigitsValue(r) == n
    ensures r[0] == '0' ==> n == 0
    decreases n
  {
    if n < 10 then [DigitChar(n)]
    else
      var front := NatToString(n / 10);
      var r := front + [DigitChar(n % 10)];
      assert r[..|r| - 1] == front;
      r
  }

  /** `strconv.Atoi`: an optional sign followed by one or more decimal
      digits, whose value must fit Go's 64-bit int; anything else fails. */
  function Atoi(s: string): (r: Option<int>)
    ensures r.Some? ==> MinInt <= r.value <= MaxInt
    ensures r.Some? ==> |s| > 0 && (IsDigit(s[0]) || s[0] == '+' || s[0] == '-')
    ensures r.Some? && |s| > 0 && IsDigit(s[0]) ==> AllDigits(s) && r.value == DigitsValue(s)
    ensures r.Some? && |s| > 0 && !IsDigit(s[0]) ==> s[0] == '+' || s[0] == '-'
    ensures |s| > 0 && AllDigits(s) ==>
      r == (if DigitsValue(s) <= MaxInt then Some(DigitsValue(s)) else None)
    ensures |s| > 1 && s[0] == '+' && AllDigits(s[1..]) ==>
      r == (if DigitsValue(s[1..]) <= MaxInt then Some(DigitsValue(s[1..])) else None)
    ensures |s| > 1 && s[0] == '-' && AllDigits(s[1..]) ==>
      r == (if DigitsValue(s[1..]) <= -MinInt then Some(-(DigitsValue(s[1..]) as int)) else None)
    ensures !(|s| > 0 && AllDigits(s)) && !(|s| > 1 && (s[0] == '+' || s[0] == '-') && AllDigits(s[1..])) ==>
      r == None
  {
    var signed := |s| > 0 && (s[0] == '+' || s[0] == '-');
    var body := if signed then s[1..] else s;
    if |body| == 0 || !AllDigits(body) then None
    else
      var v: int := if signed && s[0] == '-' then -(DigitsValue(body) as int) else DigitsValue(body);
      if MinInt <= v <= MaxInt then Some(v) else None
  }

  /** Atoi reads back what `%d` writes, for every value in range. */
  lemma NatToStringRoundTrip(n: nat)
    requires n <= MaxInt
    ensures Atoi(NatToString(n)) == Some(n)
    ensures Atoi("+" + NatToString(n)) == Some(n)
    ensures Atoi("-" + NatToString(n)) == Some(-(n as int))
  {
    var t := NatToString(n);
    assert ("+" + t)[1..] == t;
    assert ("-" + t)[1..] == t;
  }

  /** The integer nearest to `y`; on a tie, the even one (how Go's `%f`
      rounds an exactly representable half). */
  function RoundHalfEven(y: real): (n: nat)
    requires y >= 0.0
    ensures n as real - 0.5 <= y <= n as real + 0.5
    ensures y == n as real - 0.5 || y == n as real + 0.5 ==> n % 2 == 0
  {
    var f := y.Floor;
    var frac := y - f as real;
    if frac < 0.5 then f
    else if frac > 0.5 then f + 1
    else if f % 2 == 0 then f
    else f + 1
  }

  function TwoDigits(c: nat): (r: string)
    requires c < 100
    ensures |r| == 2 && AllDigits(r) && DigitsValue(r) == c
  {
    var r := [DigitChar(c / 10), DigitChar(c % 10)];
    assert r[..1] == [DigitChar(c / 10)];
    assert r[..1][..0] == [];
    assert DigitsValue(r[..1]) == c / 10;
    r
  }

  /** `r` reads as `cents` hundredths: a minus sign exactly when `neg`,
      then one or more digits without a leading zero (a lone "0" aside),
      a point and two digits. */
  predicate ShowsCents(r: string, neg: bool, cents: nat) {
    var start := if neg then 1 else 0;
    && |r| >= start + 4 && (r[0] == '-' <==> neg) && r[|r| - 3] == '.'
    && AllDigits(r[start..|r| - 3]) && AllDigits(r[|r| - 2..])
    && (r[start] == '0' ==> |r| == start + 4)
    && DigitsValue(r[start..|r| - 3]) * 100 + DigitsValue(r[|r| - 2..]) == cents
  }

  /** `fmt.Sprintf("%.2f", x)` on the exact value `x`: a minus sign for
      negative values, the whole part, a point and two rounded decimals. */
  function FormatFixed2(x: real): (r: string)
    ensures ShowsCents(r, x < 0.0, RoundHalfEven(if x < 0.0 then -x * 100.0 else x * 100.0))
  {
    FormatCents(x < 0.0, RoundHalfEven(if x < 0.0 then -x * 100.0 else x * 100.0))
  }

  /** The text of `cents` hundredths, with a leading minus when `neg`. */
  function FormatCents(neg: bool, cents: nat): (r: string)
    ensures ShowsCents(r, neg, cents)
  {
    var sign := if neg then "-" else "";
    var whole := NatToString(cents / 100);
    var frac := TwoDigits(cents % 100);
    var r := sign + whole + "." + frac;
    assert r[|sign|..|r| - 3] == whole;
    assert r[|r| - 2..] == frac;
    assert r[|r| - 3] == '.';
    assert neg ==> r[0] == '-';
    assert !neg ==> r[0] == whole[0];
    assert r[|sign|] == whole[0];
    r
  }

  /** A whole number is printed with ".00". */
  lemma FormatFixed2Whole(n: nat)
    ensures FormatFixed2(n as real) == NatToString(n) + ".00"
  {
    WholeAsCents(n);
    CentsOfWhole(n, n * 100);
  }

  lemma WholeAsCents(n: nat)
    ensures FormatFixed2(n as real) == FormatCents(false, n * 100)
  {
    HundredfoldRounds(n);
  }

  lemma CentsOfWhole(n: nat, c: nat)
    requires c == n * 100
    ensures FormatCents(false, c) == NatToString(n) + ".00"
  {
    HundredfoldDivides(n);
    WholeCents(c);
  }

  lemma WholeCents(c: nat)
    requires c % 100 == 0
    ensures FormatCents(false, c) == NatToString(c / 100) + ".00"
  {
    assert TwoDigits(0) == "00";
  }

  lemma HundredfoldRounds(n: nat)
    ensures RoundHalfEven(n as real * 100.0) == n * 100
  {
    assert n as real * 100.0 == (n * 100) as real;
    RoundWhole(n * 100);
  }

  lemma HundredfoldDivides(n: nat)
    ensures (n * 100) / 100 == n && (n * 100) % 100 == 0
  {
  }

  lemma RoundWhole(k: nat)
    ensures RoundHalfEven(k as real) == k
  {
    assert (k as real).Floor == k;
  }
}
