// The three base-unit printers of the harness servers (Go, PHP and Python), the
// price parser of the Go SDK, and the base units a parsed price is worth.
module Units {
  import opened Common
  import opened Powers
  import opened GateFees
  import opened Usage

  // ---- decimal text ----

  function Pow10(n: nat): (p: nat)
    ensures p >= 1
  {
    PowPositive(10, n);
    Pow(10, n)
  }

  predicate AllDigits(s: string) {
    forall i | 0 <= i < |s| :: '0' <= s[i] <= '9'
  }

  function Value(s: string): nat
    requires AllDigits(s)
  {
    if s == "" then 0 else Value(s[..|s| - 1]) * 10 + (s[|s| - 1] - '0') as nat
  }

  // The shortest digits of n.
  function Digits(n: nat): (s: string)
    ensures s != "" && AllDigits(s) && Value(s) == n
  {
    var last := ['0' + (n % 10) as char];
    if n < 10 then last else Digits(n / 10) + last
  }

  lemma {:induction false} ValueOfConcat(a: string, b: string)
    requires AllDigits(a) && AllDigits(b)
    ensures AllDigits(a + b) && Value(a + b) == Value(a) * Pow10(|b|) + Value(b)
  {
    if b == "" {
      assert a + b == a;
    } else {
      var front := b[..|b| - 1];
      ValueOfConcat(a, front);
      assert (a + b)[..|a + b| - 1] == a + front;
      TimesTen(Value(a), Pow10(|front|));
      TimesTenSum(Value(a) * Pow10(|front|), Value(front));
      assert Pow10(|b|) == 10 * Pow10(|front|);
      assert Value(a + b) == Value(a + front) * 10 + (b[|b| - 1] - '0') as nat;
    }
  }

  lemma TimesTenSum(a: nat, b: nat)
    ensures (a + b) * 10 == a * 10 + b * 10
  {
  }

  // n digits hold the numbers below 10^n.
  lemma {:induction false} DigitsFit(n: nat, width: nat)
    requires n < Pow10(width) && width > 0
    ensures |Digits(n)| <= width
  {
    if n >= 10 {
      DigitsFit(n / 10, width - 1);
    }
  }

  function Zeros(n: int): string {
    if n <= 0 then "" else Zeros(n - 1) + "0"
  }

  lemma {:induction false} ZerosValue(n: int)
    ensures |Zeros(n)| == (if n <= 0 then 0 else n) && AllDigits(Zeros(n)) && Value(Zeros(n)) == 0
  {
    if n > 0 {
      ZerosValue(n - 1);
      ZeroBehind(Zeros(n - 1));
      hide Value;
    }
  }

  lemma ZeroBehind(s: string)
    requires AllDigits(s)
    ensures AllDigits(s + "0") && Value(s + "0") == Value(s) * 10
  {
    assert (s + "0")[..|s|] == s;
  }

  function Sign(minus: bool): string {
    if minus then "-" else ""
  }

  // %d
  function ShowInt(n: int): string {
    Sign(n < 0) + Digits(if n < 0 then -n else n)
  }

  // %0*d: the width counts the sign.
  function Padded(n: int, width: nat): string {
    if n < 0 then "-" + Zeros(width - 1 - |Digits(-n)|) + Digits(-n)
    else Zeros(width - |Digits(n)|) + Digits(n)
  }

  function TrimZeros(s: string): string {
    if s != "" && s[|s| - 1] == '0' then TrimZeros(s[..|s| - 1]) else s
  }

  // Division and remainder as Go and PHP define them: towards zero.
  function TruncDiv(n: int, d: int): int
    requires d > 0
  {
    if n < 0 then -(-n / d) else n / d
  }

  // ---- the printers ----

  method PowerOfTen(n: nat) returns (out: int)
    ensures out == Pow10(n)
  {
    out := 1;
    for i := 0 to n
      invariant out == Pow10(i)
    {
      out := out * 10;
    }
  }

  // convertUnitsToUSD
  function GoPrint(n: int, decimals: nat): string {
    var whole := TruncDiv(n, Pow10(decimals));
    GoText(whole, n - whole * Pow10(decimals), decimals)
  }

  function GoText(whole: int, frac: int, decimals: nat): string {
    ShowInt(whole) + "." + Padded(frac, decimals)
  }

  // format_decimal_amount
  function PhpPrint(n: int, decimals: nat): string {
    if n == 0 then "0"
    else
      var whole := TruncDiv(n, Pow10(decimals));
      PhpText(whole, n - whole * Pow10(decimals), decimals)
  }

  function PhpText(whole: int, frac: int, decimals: nat): string {
    if frac == 0 then ShowInt(whole) else TrimZeros(ShowInt(whole) + "." + Padded(frac, decimals))
  }

  // _base_units_to_human
  function PythonPrint(n: int, decimals: int): string {
    if decimals <= 0 then ShowInt(n)
    else
      var units := if n < 0 then -n else n;
      PythonText(Sign(n < 0), units / Pow10(decimals), units % Pow10(decimals), decimals)
  }

  function PythonText(sign: string, quotient: int, remainder: int, decimals: nat): string {
    var fraction := TrimZeros(Padded(remainder, decimals));
    if fraction == "" then sign + ShowInt(quotient) else sign + ShowInt(quotient) + "." + fraction
  }

  // ---- reading a price ----

  function ParseInteger(s: string): Option<int> {
    var body := if s != "" && (s[0] == '-' || s[0] == '+') then s[1..] else s;
    if body == "" || !AllDigits(body) then None
    else Some(if s[0] == '-' then -(Value(body) as int) else Value(body) as int)
  }

  function FindDot(s: string): (p: nat)
    ensures p <= |s| && (forall i | 0 <= i < p :: s[i] != '.') && (p < |s| ==> s[p] == '.')
  {
    if s == "" || s[0] == '.' then 0 else 1 + FindDot(s[1..])
  }

  function Quotient(n: int, digits: nat): real {
    n as real / Pow10(digits) as real
  }

  // A decimal without an exponent: the dot is taken out and the digits behind
  // it give the scale.
  function ParseDecimal(s: string): Option<real> {
    var p := FindDot(s);
    if p == |s| then
      var n := ParseInteger(s);
      if n.None? then None else Some(n.value as real)
    else
      var n := ParseInteger(s[..p] + s[p + 1..]);
      if n.None? then None else Some(Quotient(n.value, |s| - p - 1))
  }

  function ParsePrice(amount: string, currency: string): Result<Price> {
    var d := ParseDecimal(amount);
    if d.None? then Err("invalid amount")
    else if d.value < 0.0 then Err("amount must be non-negative")
    else Ok(Price(d.value, currency))
  }

  // ---- the printers agree, and the parser inverts them ----

  // A minus sign behind the first character is not a number.
  lemma InnerMinus(s: string, i: nat)
    requires 0 < i < |s| && s[i] == '-'
    ensures ParseInteger(s) == None
  {
    var body := if s[0] == '-' || s[0] == '+' then s[1..] else s;
    assert body[if body == s then i else i - 1] == '-';
  }

  lemma IntegerOfDigits(minus: bool, digits: string)
    requires AllDigits(digits) && digits != ""
    ensures ParseInteger(Sign(minus) + digits) == Some(if minus then -(Value(digits) as int) else Value(digits))
  {
    var s := Sign(minus) + digits;
    if minus {
      assert s[1..] == digits;
    } else {
      assert s == digits;
    }
  }

  lemma DecimalSplits(front: string, fraction: string)
    requires '.' !in front
    ensures var n := ParseInteger(front + fraction);
      ParseDecimal(front + "." + fraction) == if n.None? then None else Some(Quotient(n.value, |fraction|))
  {
    hide ParseInteger, Pow10, FindDot, Quotient;
    var s := front + "." + fraction;
    assert forall i | 0 <= i < |front| :: s[i] == front[i];
    assert s[|front|] == '.';
    DotAt(s, |front|);
    assert s[..|front|] == front && s[|front| + 1..] == fraction;
  }

  function Signed(minus: bool, n: int): int {
    if minus then -n else n
  }

  // A sign, digits, a dot and digits.
  lemma DecimalOfDigits(minus: bool, whole: string, fraction: string)
    requires AllDigits(whole) && AllDigits(fraction) && whole != ""
    ensures var units := Value(whole) * Pow10(|fraction|) + Value(fraction);
      ParseDecimal(Sign(minus) + whole + "." + fraction) == Some(Quotient(if minus then -units else units, |fraction|))
  {
    hide ParseInteger, ParseDecimal, Value, Pow10, Quotient;
    var front := Sign(minus) + whole;
    assert '.' !in front;
    DecimalSplits(front, fraction);
    ValueOfConcat(whole, fraction);
    assert front + fraction == Sign(minus) + (whole + fraction);
    IntegerOfDigits(minus, whole + fraction);
  }

  lemma DotAt(s: string, p: nat)
    requires p < |s| && s[p] == '.' && forall i | 0 <= i < p :: s[i] != '.'
    ensures FindDot(s) == p
  {
  }

  lemma DecimalOfInteger(minus: bool, size: nat)
    ensures ParseDecimal(Sign(minus) + Digits(size)) == Some(Signed(minus, size) as real)
  {
    var s := Sign(minus) + Digits(size);
    assert '.' !in s;
    IntegerOfDigits(minus, Digits(size));
  }

  // A fraction of a given width, with its leading zeros.
  lemma PaddedDigits(n: nat, width: nat)
    requires n < Pow10(width)
    ensures AllDigits(Padded(n, width)) && Value(Padded(n, width)) == n
    ensures |Padded(n, width)| == if width == 0 then 1 else width
  {
    hide Digits, Zeros, Value;
    ZerosValue(width - |Digits(n)|);
    ValueOfConcat(Zeros(width - |Digits(n)|), Digits(n));
    if width > 0 {
      DigitsFit(n, width);
    } else {
      OneDigit();
    }
  }

  lemma OneDigit()
    ensures Pow10(0) == 1 && Digits(0) == "0"
  {
  }

  // Trimming takes zeros off the end, and each was worth a factor of ten.
  lemma {:induction false} TrimmedDigits(s: string)
    requires AllDigits(s)
    ensures var t := TrimZeros(s);
      && t <= s && AllDigits(t) && Value(s) == Value(t) * Pow10(|s| - |t|)
      && (t == "" <==> Value(s) == 0)
  {
    var t := TrimZeros(s);
    if s != "" && s[|s| - 1] == '0' {
      TrimmedDigits(s[..|s| - 1]);
      assert Pow10(|s| - |t|) == 10 * Pow10(|s| - 1 - |t|);
      assert Value(s) == Value(s[..|s| - 1]) * 10;
      TimesTen(Value(t), Pow10(|s| - 1 - |t|));
    } else if s != "" {
      assert Value(s) > 0;
    }
  }

  lemma TimesTen(a: nat, b: nat)
    ensures a * b * 10 == a * (10 * b)
  {
  }

  // Scaling numerator and denominator alike.
  lemma SameQuotient(n: int, digits: nat, k: nat)
    ensures Quotient(n * Pow10(k), digits + k) == Quotient(n, digits)
  {
    PowAdd(10, digits, k);
    QuotientScaled(n, Pow10(digits), Pow10(k));
  }

  lemma QuotientScaled(n: int, p: nat, q: nat)
    requires p > 0 && q > 0
    ensures p * q > 0 && (n * q) as real / (p * q) as real == n as real / p as real
  {
    RealProduct(p, q);
    RealProduct(n, q);
    CancelFactor(n as real, p as real, q as real);
  }

  lemma RealProduct(a: int, b: int)
    ensures (a * b) as real == a as real * b as real
  {
  }

  lemma CancelFactor(a: real, b: real, c: real)
    requires b > 0.0 && c > 0.0
    ensures (a * c) / (b * c) == a / b
  {
    var q := a / b;
    assert q * b == a;
    assert q * (b * c) == a * c;
  }

  // Trailing zeros of the fraction do not change what the text denotes.
  lemma TrimmedDenotes(minus: bool, whole: string, text: string)
    requires AllDigits(whole) && AllDigits(text) && whole != ""
    ensures AllDigits(TrimZeros(text))
    ensures ParseDecimal(Sign(minus) + whole + "." + TrimZeros(text)) == ParseDecimal(Sign(minus) + whole + "." + text)
  {
    hide ParseDecimal, TrimZeros, Value, Quotient, Pow10;
    var t := TrimZeros(text);
    TrimmedDigits(text);
    var k := |text| - |t|;
    DecimalOfDigits(minus, whole, text);
    DecimalOfDigits(minus, whole, t);
    var units := Value(whole) * Pow10(|t|) + Value(t);
    ScaleBoth(Value(whole), Value(t), |t|, k);
    SameQuotient(Signed(minus, units), |t|, k);
    assert Signed(minus, units) * Pow10(k) == Signed(minus, units * Pow10(k));
  }

  lemma ScaleBoth(whole: nat, frac: nat, digits: nat, k: nat)
    ensures whole * Pow10(digits + k) + frac * Pow10(k) == (whole * Pow10(digits) + frac) * Pow10(k)
  {
    PowAdd(10, digits, k);
    Associate(whole, Pow10(digits), Pow10(k));
  }

  // A whole part and a fraction, printed with its zeros or without them.
  lemma FractionDenotes(minus: bool, whole: nat, frac: nat, width: nat)
    requires frac < Pow10(width)
    ensures var x := Some(Quotient(Signed(minus, whole * Pow10(width) + frac), width));
      && ParseDecimal(Sign(minus) + Digits(whole) + "." + Padded(frac, width)) == x
      && ParseDecimal(Sign(minus) + Digits(whole) + "." + TrimZeros(Padded(frac, width))) == x
  {
    hide ParseDecimal, Digits, Padded, TrimZeros, Value, Quotient, Pow10;
    var text := Padded(frac, width);
    PaddedDigits(frac, width);
    DecimalOfDigits(minus, Digits(whole), text);
    TrimmedDenotes(minus, Digits(whole), text);
    if width == 0 {
      OneDigit();
      ScaleBoth(whole, 0, 0, 1);
      SameQuotient(Signed(minus, whole * Pow10(0)), 0, 1);
      assert Signed(minus, whole * Pow10(0)) * Pow10(1) == Signed(minus, whole * Pow10(0) * Pow10(1));
    }
  }

  lemma MultipleBounds(e: int, d: int)
    requires d > 0
    ensures e >= 1 ==> e * d >= d
    ensures e <= -1 ==> e * d <= -d
  {
  }

  lemma DivisionIs(n: int, d: int, q: int, r: int)
    requires d > 0 && n == q * d + r && 0 <= r < d
    ensures n / d == q && n % d == r
  {
    var e := q - n / d;
    assert e * d == n % d - r;
    MultipleBounds(e, d);
  }

  lemma NegatedRemainder(n: int, d: int)
    requires d > 0 && n % d == 0
    ensures -n % d == 0
  {
    assert -n == (-(n / d)) * d + 0;
    DivisionIs(-n, d, -(n / d), 0);
  }

  lemma NegatedProduct(q: int, d: int)
    ensures (-q) * d == -(q * d)
  {
  }

  lemma NonNegativeQuotient(n: int, d: int)
    requires n >= 0 && d > 0
    ensures n / d >= 0 && n == n / d * d + n % d
  {
  }

  // What is left after dividing towards zero has the sign of the number.
  lemma SplitTowardZero(n: int, d: int)
    requires d > 0
    ensures var whole := TruncDiv(n, d);
      var frac := n - whole * d;
      if n >= 0 then whole >= 0 && frac == n % d else whole <= 0 && frac == -(-n % d) && (frac == 0 <==> n % d == 0)
  {
    if n < 0 {
      NonNegativeQuotient(-n, d);
      NegatedProduct(-n / d, d);
      if n % d == 0 {
        NegatedRemainder(n, d);
      }
      if -n % d == 0 {
        NegatedRemainder(-n, d);
      }
    } else {
      NonNegativeQuotient(n, d);
    }
  }

  lemma {:induction false} TrimBehind(front: string, text: string)
    requires front != "" && front[|front| - 1] != '0'
    ensures TrimZeros(front + text) == front + TrimZeros(text)
  {
    if text == "" {
      assert front + text == front;
    } else {
      var s := front + text;
      assert s[|s| - 1] == text[|text| - 1] && s[..|s| - 1] == front + text[..|text| - 1];
      TrimBehind(front, text[..|text| - 1]);
    }
  }

  lemma {:induction false} TrimKeepsFirst(text: string)
    requires text != "" && text[0] != '0'
    ensures TrimZeros(text) != "" && TrimZeros(text)[0] == text[0]
  {
    if |text| > 1 {
      TrimKeepsFirst(text[..|text| - 1]);
    }
  }

  lemma NoNumber(front: string, text: string)
    requires front != "" && '.' !in front && text != "" && text[0] == '-'
    ensures ParseDecimal(front + "." + text) == None
  {
    hide ParseDecimal, ParseInteger;
    DecimalSplits(front, text);
    InnerMinus(front + text, |front|);
  }

  // A negative fraction puts its sign behind the dot.
  lemma MinusInside(whole: int, frac: int, width: nat)
    requires frac < 0
    ensures ParseDecimal(GoText(whole, frac, width)) == None && ParseDecimal(PhpText(whole, frac, width)) == None
  {
    hide ParseDecimal, TrimZeros, Digits, Zeros;
    var front, text := ShowInt(whole), Padded(frac, width);
    assert text[0] == '-' && '.' !in front;
    NoNumber(front, text);
    TrimKeepsFirst(text);
    NoNumber(front, TrimZeros(text));
    TrimBehind(front + ".", text);
  }

  lemma SignedWhole(minus: bool, size: nat, decimals: nat)
    ensures ParseDecimal(Sign(minus) + Digits(size)) == Some(Quotient(Signed(minus, size * Pow10(decimals)), decimals))
  {
    hide ParseDecimal, Digits, Quotient, Pow10;
    DecimalOfInteger(minus, size);
    SameQuotient(Signed(minus, size), 0, decimals);
    OverOne(Signed(minus, size));
    NegatedProduct(size, Pow10(decimals));
  }

  lemma WholeDenotes(whole: int, decimals: nat)
    ensures ParseDecimal(ShowInt(whole)) == Some(Quotient(whole * Pow10(decimals), decimals))
  {
    hide ParseDecimal, Digits, Quotient, Pow10;
    var size := if whole < 0 then -whole else whole;
    SignedWhole(whole < 0, size, decimals);
    NegatedProduct(size, Pow10(decimals));
  }

  lemma OverOne(n: int)
    ensures Quotient(n, 0) == n as real
  {
  }

  // A whole part and a fraction of the same sign, as all three print them.
  lemma TextsDenote(whole: int, frac: int, decimals: nat)
    requires 0 <= frac < Pow10(decimals) && whole >= 0
    ensures var x := Some(Quotient(whole * Pow10(decimals) + frac, decimals));
      ParseDecimal(GoText(whole, frac, decimals)) == x && ParseDecimal(PhpText(whole, frac, decimals)) == x
  {
    hide ParseDecimal, Digits, Padded, Quotient, Pow10, TrimZeros;
    FractionDenotes(false, whole, frac, decimals);
    assert ShowInt(whole) == Sign(false) + Digits(whole);
    if frac == 0 {
      WholeDenotes(whole, decimals);
    } else {
      PhpTrims(whole, frac, decimals);
    }
  }

  lemma PhpTrims(whole: int, frac: int, decimals: nat)
    requires frac != 0
    ensures PhpText(whole, frac, decimals) == ShowInt(whole) + "." + TrimZeros(Padded(frac, decimals))
  {
    hide TrimZeros, Padded, ShowInt;
    TrimBehind(ShowInt(whole) + ".", Padded(frac, decimals));
  }

  lemma NegativeTexts(whole: int, decimals: nat)
    requires whole <= 0
    ensures var x := Some(Quotient(whole * Pow10(decimals), decimals));
      ParseDecimal(GoText(whole, 0, decimals)) == x && ParseDecimal(PhpText(whole, 0, decimals)) == x
  {
    hide ParseDecimal, Digits, Padded, Quotient, Pow10, TrimZeros;
    WholeDenotes(whole, decimals);
    FractionDenotes(whole < 0, -whole, 0, decimals);
    NegatedProduct(-whole, Pow10(decimals));
    assert ShowInt(whole) == Sign(whole < 0) + Digits(-whole);
  }

  // Go and PHP print a readable amount exactly when the fraction they print is
  // not negative.
  lemma GoPhpDenote(n: int, decimals: nat)
    ensures var x := if n >= 0 || n % Pow10(decimals) == 0 then Some(Quotient(n, decimals)) else None;
      ParseDecimal(GoPrint(n, decimals)) == x && ParseDecimal(PhpPrint(n, decimals)) == x
  {
    hide ParseDecimal, Quotient, Pow10, GoText, PhpText, TruncDiv;
    var d := Pow10(decimals);
    var whole := TruncDiv(n, d);
    var frac := n - whole * d;
    SplitTowardZero(n, d);
    ZeroText(whole, decimals);
    if n >= 0 {
      TextsDenote(whole, frac, decimals);
    } else if frac == 0 {
      NegativeTexts(whole, decimals);
    } else {
      MinusInside(whole, frac, decimals);
    }
  }

  // PHP's first branch prints what the others would.
  lemma ZeroText(whole: int, decimals: nat)
    ensures whole == 0 ==> PhpText(whole, 0, decimals) == "0"
  {
  }

  lemma NothingLeft(frac: nat, width: nat)
    requires frac < Pow10(width)
    ensures TrimZeros(Padded(frac, width)) == "" <==> frac == 0
  {
    PaddedDigits(frac, width);
    TrimmedDigits(Padded(frac, width));
  }

  lemma ShowNat(n: nat)
    ensures ShowInt(n) == Digits(n)
  {
  }

  lemma PythonTextDenotes(minus: bool, quotient: nat, remainder: nat, decimals: nat)
    requires remainder < Pow10(decimals)
    ensures ParseDecimal(PythonText(Sign(minus), quotient, remainder, decimals))
      == Some(Quotient(Signed(minus, quotient * Pow10(decimals) + remainder), decimals))
  {
    hide ParseDecimal, Digits, Padded, Quotient, Pow10, TrimZeros, Signed, Sign, ShowInt;
    ShowNat(quotient);
    NothingLeft(remainder, decimals);
    if remainder == 0 {
      SignedWhole(minus, quotient, decimals);
    } else {
      FractionDenotes(minus, quotient, remainder, decimals);
    }
  }

  // Python puts the sign in front, so it prints every number readably.
  lemma PythonDenotes(n: int, decimals: nat)
    ensures ParseDecimal(PythonPrint(n, decimals)) == Some(Quotient(n, decimals))
  {
    hide ParseDecimal, Quotient, Pow10, PythonText, ShowInt;
    if decimals == 0 {
      WholeDenotes(n, 0);
      PowZero();
    } else {
      var units := if n < 0 then -n else n;
      NonNegativeQuotient(units, Pow10(decimals));
      PythonTextDenotes(n < 0, units / Pow10(decimals), units % Pow10(decimals), decimals);
    }
  }

  lemma PowZero()
    ensures Pow10(0) == 1
  {
  }

  // ---- prices ----

  lemma SixDigits()
    ensures Pow10(6) == 1000000
  {
    hide Pow;
    PowSmall();
    PowAdd(10, 3, 3);
  }

  lemma PowSmall()
    ensures Pow(10, 3) == 1000
  {
  }

  // A price of n base units is worth n base units, in 64 bits.
  lemma WorthItsUnits(n: nat)
    ensures Quotient(n, 6) >= 0.0 && BaseUnits(Quotient(n, 6)) == n % TWO_64
  {
    SixDigits();
    var x := Quotient(n, 6);
    assert x == n as real / 1000000.0;
    assert x * 1000000.0 == n as real;
  }

  // Every non-negative amount: the three servers print texts that parse to the
  // same price, and a gate without fees at that price charges the amount back.
  lemma PrintersInverted(n: nat, currency: string, t: Terms)
    requires t.feeOnTop == map[]
    ensures var price := Price(Quotient(n, 6), currency);
      && ParsePrice(GoPrint(n, 6), currency) == Ok(price)
      && ParsePrice(PhpPrint(n, 6), currency) == Ok(price)
      && ParsePrice(PythonPrint(n, 6), currency) == Ok(price)
      && (t.amount == price ==> BaseUnits(TotalAmount(t)) == n % TWO_64)
  {
    hide ParseDecimal, Quotient, GoPrint, PhpPrint, PythonPrint, BaseUnits;
    GoPhpDenote(n, 6);
    PythonDenotes(n, 6);
    WorthItsUnits(n);
  }

  // In the range of a signed 64-bit number nothing wraps.
  lemma PrintersInvertedBelow2To63(n: nat, currency: string, t: Terms)
    requires n < TWO_63 && t.feeOnTop == map[]
    requires
      || Ok(t.amount) == ParsePrice(GoPrint(n, 6), currency)
      || Ok(t.amount) == ParsePrice(PhpPrint(n, 6), currency)
      || Ok(t.amount) == ParsePrice(PythonPrint(n, 6), currency)
    ensures BaseUnits(TotalAmount(t)) == n
  {
    hide ParsePrice, BaseUnits, TotalAmount, GoPrint, PhpPrint, PythonPrint, Quotient;
    PrintersInverted(n, currency, t);
  }

  // A negative amount is refused, whichever server prints it.
  lemma NegativeRefused(n: int, currency: string)
    requires n < 0
    ensures ParsePrice(GoPrint(n, 6), currency).Err?
    ensures ParsePrice(PhpPrint(n, 6), currency).Err?
    ensures ParsePrice(PythonPrint(n, 6), currency).Err?
  {
    hide ParseDecimal, GoPrint, PhpPrint, PythonPrint;
    GoPhpDenote(n, 6);
    PythonDenotes(n, 6);
    SixDigits();
    assert Quotient(n, 6) < 0.0;
  }

  // ---- from the text of an amount ----

  // strconv.Atoi: a signed 64-bit integer, or an error.
  function Atoi(s: string): Option<int> {
    var n := ParseInteger(s);
    if n.Some? && -(TWO_63 as int) <= n.value < TWO_63 then n else None
  }

  // convertUnitsToUSD with its error branch: a text it cannot read comes back as it is.
  function GoConvert(amount: string, decimals: nat): string {
    var n := Atoi(amount);
    if n.None? then amount else GoPrint(n.value, decimals)
  }

  // PHP's cast of digits to an integer stops at the largest one.
  function PhpConvert(amount: nat, decimals: nat): string {
    PhpPrint(if amount < TWO_63 then amount else TWO_63 - 1, decimals)
  }

  // Go and PHP convert the digits of a number to its price exactly when it is a
  // signed 64-bit number. Beyond that Go takes the base units for dollars and
  // PHP charges less; Python has no limit.
  lemma ConvertsExactly(n: nat)
    ensures ParseDecimal(GoConvert(Digits(n), 6)) == Some(Quotient(n, 6)) <==> n < TWO_63
    ensures n >= TWO_63 ==> ParseDecimal(GoConvert(Digits(n), 6)) == Some(n as real)
    ensures ParseDecimal(PhpConvert(n, 6)) == Some(Quotient(n, 6)) <==> n < TWO_63
    ensures ParseDecimal(PythonPrint(n, 6)) == Some(Quotient(n, 6))
  {
    hide ParseDecimal, ParseInteger, Digits, GoPrint, PhpPrint, PythonPrint;
    PlainDigits(n);
    GoPhpDenote(n, 6);
    GoPhpDenote(TWO_63 - 1, 6);
    PythonDenotes(n, 6);
    SixDigits();
    assert n >= TWO_63 ==> Quotient(n, 6) != n as real;
    assert n >= TWO_63 ==> Quotient(n, 6) != Quotient(TWO_63 - 1, 6);
  }

  lemma PlainDigits(n: nat)
    ensures ParseInteger(Digits(n)) == Some(n) && ParseDecimal(Digits(n)) == Some(n as real)
  {
    IntegerOfDigits(false, Digits(n));
    DecimalOfInteger(false, n);
    assert "" + Digits(n) == Digits(n);
  }
}
