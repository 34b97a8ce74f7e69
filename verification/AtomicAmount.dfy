/** Exact scaling of a decimal price to atomic units, on text. */
module AtomicAmount {
  import opened Text
  import opened Wrappers

  predicate IsDigit(c: char) { '0' <= c <= '9' }

  predicate AllDigits(s: string) {
    forall i :: 0 <= i < |s| ==> IsDigit(s[i])
  }

  /** The number a digit text denotes; the empty text denotes zero. */
  function ToNat(s: string): nat
    requires AllDigits(s)
  {
    if s == "" then 0
    else 10 * ToNat(s[..|s| - 1]) + (s[|s| - 1] as int - '0' as int)
  }

  function Pow10(n: nat): (p: nat)
    ensures p >= 1
  {
    if n == 0 then 1 else 10 * Pow10(n - 1)
  }

  function Zeros(n: nat): (s: string)
    ensures |s| == n && AllDigits(s)
  {
    if n == 0 then "" else Zeros(n - 1) + "0"
  }

  /** A numeral without leading zeros. */
  predicate Canonical(s: string) {
    s != "" && AllDigits(s) && (s[0] == '0' ==> |s| == 1)
  }

  /** `String(BigInt(digits))` prints the number this way. */
  function Numeral(n: nat): (s: string)
    ensures Canonical(s) && ToNat(s) == n
    ensures n > 0 ==> s[0] != '0'
  {
    if n < 10 then
      var s := [('0' as int + n) as char];
      assert s[..0] == "";
      s
    else
      var front := Numeral(n / 10);
      var s := front + [('0' as int + n % 10) as char];
      assert s[..|s| - 1] == front;
      s
  }

  lemma {:induction false} CanonicalPositive(s: string)
    requires Canonical(s) && s[0] != '0'
    ensures ToNat(s) >= 1
  {
    if |s| > 1 {
      CanonicalPositive(s[..|s| - 1]);
    } else {
      assert s[..0] == "";
    }
  }

  /** The canonical numeral of a number is unique: printing what it denotes
      gives it back. */
  lemma {:induction false} CanonicalUnique(s: string)
    requires Canonical(s)
    ensures Numeral(ToNat(s)) == s
  {
    var front := s[..|s| - 1];
    assert s == front + [s[|s| - 1]];
    if |s| == 1 {
      assert front == "";
    } else {
      CanonicalUnique(front);
      CanonicalPositive(front);
      assert ToNat(s) / 10 == ToNat(front);
    }
  }

  lemma ToNatEmpty()
    ensures ToNat("") == 0
  {
  }

  lemma ToNatSnoc(front: string, last: char)
    requires AllDigits(front) && IsDigit(last)
    ensures AllDigits(front + [last]) && ToNat(front + [last]) == 10 * ToNat(front) + (last as int - '0' as int)
  {
    assert (front + [last])[..|front|] == front;
  }

  lemma {:induction false} ToNatAppendZeros(s: string, n: nat)
    requires AllDigits(s)
    ensures ToNat(s + Zeros(n)) == ToNat(s) * Pow10(n)
  {
    hide ToNat;
    if n == 0 {
      assert s + Zeros(0) == s;
    } else {
      ToNatAppendZeros(s, n - 1);
      assert s + Zeros(n) == (s + Zeros(n - 1)) + ['0'];
      ToNatSnoc(s + Zeros(n - 1), '0');
      assert 10 * (ToNat(s) * Pow10(n - 1)) == ToNat(s) * (10 * Pow10(n - 1));
    }
  }

  lemma {:induction false} ToNatPrependZeros(n: nat, s: string)
    requires AllDigits(s)
    ensures ToNat(Zeros(n) + s) == ToNat(s)
  {
    hide Zeros, ToNat;
    if s == "" {
      assert Zeros(n) + s == Zeros(n) == "" + Zeros(n);
      ToNatAppendZeros("", n);
      ToNatEmpty();
    } else {
      var front, last := s[..|s| - 1], s[|s| - 1];
      assert s == front + [last];
      assert Zeros(n) + s == (Zeros(n) + front) + [last];
      ToNatPrependZeros(n, front);
      ToNatSnoc(front, last);
      ToNatSnoc(Zeros(n) + front, last);
    }
  }

  /** A decimal text as the price pattern matches it: digits, then optionally a
      point and at least one digit. `fraction` is `None` without a point. */
  datatype Decimal = Decimal(whole: string, fraction: Option<string>) {
    ghost predicate Valid() {
      && AllDigits(whole)
      && (fraction.Some? ==> fraction.value != "" && AllDigits(fraction.value))
      && (whole == "" ==> fraction.Some?)
    }

    function Fraction(): string {
      if fraction.Some? then fraction.value else ""
    }

    function Text(): string {
      whole + if fraction.Some? then "." + fraction.value else ""
    }
  }

  lemma AroundPoint(s: string, point: nat)
    requires point < |s| && s[point] == '.'
    ensures Decimal(s[..point], Some(s[point + 1..])).Text() == s
  {
    assert s[..point] + ("." + s[point + 1..]) == s;
  }

  lemma WholeText(s: string)
    ensures Decimal(s, None).Text() == s
  {
    assert s + "" == s;
  }

  /** The pattern match, with the empty text refused. */
  function ParseDecimal(s: string): (d: Option<Decimal>)
    ensures d.Some? ==> d.value.Valid() && d.value.Text() == s
  {
    var point := IndexOf(s, '.');
    if point == -1 then
      if s != "" && AllDigits(s) then
        WholeText(s);
        Some(Decimal(s, None))
      else None
    else if s[point + 1..] != "" && AllDigits(s[..point]) && AllDigits(s[point + 1..]) then
      AroundPoint(s, point);
      Some(Decimal(s[..point], Some(s[point + 1..])))
    else None
  }

  /** Every decimal text is matched, in the one way it is a decimal. */
  lemma ParseComplete(d: Decimal)
    requires d.Valid()
    ensures ParseDecimal(d.Text()) == Some(d)
  {
    var s := d.Text();
    if d.fraction.Some? {
      var w := |d.whole|;
      assert s == d.whole + "." + d.fraction.value;
      assert s[w] == '.' && s[..w] == d.whole && s[w + 1..] == d.fraction.value;
      var i := IndexOf(s, '.');
      assert i == w;
    } else {
      assert s == d.whole;
      assert '.' !in d.whole;
    }
  }

  /** `RepeatRange` is the RangeError of `"0".repeat` on a negative count. */
  datatype Error = BadAmount | BadPrice | TooManyDigits | RepeatRange

  /** A price as given: text, or a number by the text `String` renders it as. */
  datatype Price = Text(text: string) | Number(rendered: string)

  /** `toAtomicAmount`. */
  function ToAtomicAmount(price: Price, decimals: nat, amountOverride: Option<string>)
    : Result<string, Error>
  {
    if amountOverride.Some? then
      if amountOverride.value != "" && AllDigits(amountOverride.value) then Success(amountOverride.value)
      else Failure(BadAmount)
    else
      var text := if price.Number? then ExpandExponential(price.rendered) else Some(price.text);
      if text.None? then Failure(RepeatRange) else Scale(text.value, decimals)
  }

  function Scale(text: string, decimals: nat): Result<string, Error> {
    var parsed := ParseDecimal(text);
    if parsed.None? then Failure(BadPrice)
    else
      var fraction := parsed.value.Fraction();
      if |fraction| > decimals then Failure(TooManyDigits)
      else Success(Numeral(ToNat(parsed.value.whole + (fraction + Zeros(decimals - |fraction|)))))
  }

  /** Exactness: a text is accepted iff it is a decimal `W.F` with at most
      `decimals` fraction digits, and then the result is the canonical numeral
      of the integer N with N * 10^|F| == WF * 10^decimals. */
  lemma ScaleExact(text: string, decimals: nat)
    ensures ParseDecimal(text).None? ==> Scale(text, decimals) == Failure(BadPrice)
    ensures ParseDecimal(text).Some? ==>
      var d := ParseDecimal(text).value;
      var r := Scale(text, decimals);
      if |d.Fraction()| > decimals then r == Failure(TooManyDigits)
      else r.Success? && Canonical(r.value)
           && ToNat(r.value) * Pow10(|d.Fraction()|) == ToNat(d.whole + d.Fraction()) * Pow10(decimals)
  {
    hide ParseDecimal;
    hide Pow10;
    hide Zeros;
    hide ToNat;
    var parsed := ParseDecimal(text);
    if parsed.Some? && |parsed.value.Fraction()| <= decimals {
      var d := parsed.value;
      var f := |d.Fraction()|;
      var wf := d.whole + d.Fraction();
      assert d.whole + (d.Fraction() + Zeros(decimals - f)) == wf + Zeros(decimals - f);
      ToNatAppendZeros(wf, decimals - f);
      PowSum(decimals - f, f);
      Associate(ToNat(wf), Pow10(decimals - f), Pow10(f));
    }
  }

  lemma Associate(a: nat, b: nat, c: nat)
    ensures a * b * c == a * (b * c)
  {
  }

  lemma {:induction false} PowSum(a: nat, b: nat)
    ensures Pow10(a) * Pow10(b) == Pow10(a + b)
  {
    if a > 0 {
      PowSum(a - 1, b);
      assert 10 * Pow10(a - 1) * Pow10(b) == 10 * (Pow10(a - 1) * Pow10(b));
    }
  }

  /** The parts of a rendered number `I.Fe±X`. */
  datatype Exponential = Exponential(int_: string, frac: string, exp: int) {
    ghost predicate Valid() {
      int_ != "" && AllDigits(int_) && AllDigits(frac)
    }

    function Digits(): string { int_ + frac }

    function Point(): int { |int_| + exp }
  }

  /** `Number` of an exponent text: an optional sign, then digits. */
  function ExponentValue(s: string): int {
    if s != "" && s[0] == '-' && AllDigits(s[1..]) then -(ToNat(s[1..]) as int)
    else if s != "" && s[0] == '+' && AllDigits(s[1..]) then ToNat(s[1..])
    else if AllDigits(s) then ToNat(s)
    else 0
  }

  function SplitExponential(s: string): (x: Exponential)
    requires 'e' in s
  {
    var e := IndexOf(s, 'e');
    var mantissa := s[..e];
    var dot := IndexOf(mantissa, '.');
    if dot == -1 then Exponential(mantissa, "", ExponentValue(s[e + 1..]))
    else Exponential(mantissa[..dot], mantissa[dot + 1..], ExponentValue(s[e + 1..]))
  }

  /** `expandExponential`, whose `"0".repeat` of a negative count throws. */
  function ExpandExponential(s: string): Option<string> {
    if 'e' !in s then Some(s) else Layout(SplitExponential(s))
  }

  function Layout(x: Exponential): Option<string> {
    if x.Point() <= 0 then Some("0." + Zeros(-x.Point()) + x.Digits())
    else if x.Point() >= |x.Digits()| then Some(x.Digits() + Zeros(x.Point() - |x.Digits()|))
    else None
  }

  /** A layout exists exactly when the point falls outside the digits, and then
      it denotes the same number: digits * 10^(exp - |frac|). */
  lemma LayoutExact(x: Exponential)
    requires x.Valid()
    ensures Layout(x).Some? <==> x.Point() <= 0 || x.Point() >= |x.Digits()|
    ensures x.Point() <= 0 ==>
      exists d: Decimal :: && d.Valid() && d.Text() == Layout(x).value
                           && |d.Fraction()| == |x.frac| - x.exp
                           && ToNat(d.whole + d.Fraction()) == ToNat(x.Digits())
    ensures x.Point() >= |x.Digits()| ==>
      && |x.frac| <= x.exp
      && Decimal(Layout(x).value, None).Valid()
      && ToNat(Layout(x).value) == ToNat(x.Digits()) * Pow10(x.exp - |x.frac|)
  {
    if x.Point() <= 0 {
      var f := Zeros(-x.Point()) + x.Digits();
      var d := Decimal("0", Some(f));
      assert d.Text() == "0." + Zeros(-x.Point()) + x.Digits();
      assert d.whole + d.Fraction() == Zeros(1 - x.Point()) + x.Digits() by {
        ZerosFront(-x.Point());
        assert "0" + (Zeros(-x.Point()) + x.Digits()) == ("0" + Zeros(-x.Point())) + x.Digits();
      }
      ToNatPrependZeros(1 - x.Point(), x.Digits());
      assert d.Valid();
    } else if x.Point() >= |x.Digits()| {
      ToNatAppendZeros(x.Digits(), x.Point() - |x.Digits()|);
    }
  }

  lemma {:induction false} ZerosFront(n: nat)
    ensures "0" + Zeros(n) == Zeros(n + 1)
  {
    if n > 0 {
      ZerosFront(n - 1);
      assert "0" + Zeros(n) == ("0" + Zeros(n - 1)) + "0";
    }
  }

  /** The answer for digits * 10^shift atomic units: more fraction digits than
      there is room for, or the exact integer. */
  function Units(digits: nat, shift: int): Result<string, Error> {
    if shift < 0 then Failure(TooManyDigits) else Success(Numeral(digits * Pow10(shift)))
  }

  /** A number rendered with an exponent is scaled exactly too: to
      digits * 10^(decimals + exp - |frac|). */
  lemma NumberExact(rendered: string, decimals: nat)
    requires 'e' in rendered && SplitExponential(rendered).Valid()
    ensures
      var x := SplitExponential(rendered);
      ToAtomicAmount(Number(rendered), decimals, None)
      == if 0 < x.Point() < |x.Digits()| then Failure(RepeatRange)
         else Units(ToNat(x.Digits()), decimals + x.exp - |x.frac|)
  {
    hide ParseDecimal;
    hide Pow10;
    hide Zeros;
    hide ToNat;
    hide SplitExponential;
    var x := SplitExponential(rendered);
    if x.Point() <= 0 {
      NumberBelowOne(x, decimals);
    } else if x.Point() >= |x.Digits()| {
      NumberAboveOne(x, decimals);
    }
  }

  /** The sign of an exponent, when it is written. */
  datatype Sign = Plus | Minus | Unsigned

  function SignText(sign: Sign): string {
    match sign
    case Plus => "+"
    case Minus => "-"
    case Unsigned => ""
  }

  /** How a number is rendered with an exponent: `I.Fe+X`, or `Ie+X` without a fraction. */
  function Rendered(whole: string, frac: string, sign: Sign, exponent: string): string {
    whole + (if frac == "" then "" else "." + frac) + "e" + SignText(sign) + exponent
  }

  function Signed(sign: Sign, digits: string): int
    requires AllDigits(digits)
  {
    if sign.Minus? then 0 - ToNat(digits) else ToNat(digits)
  }

  lemma CutAt(before: string, c: char, rest: string)
    requires c !in before
    ensures
      var s := before + [c] + rest;
      c in s && IndexOf(s, c) == |before| && s[..|before|] == before && s[|before| + 1..] == rest
  {
    var s := before + [c] + rest;
    assert s[|before|] == c && s[..|before|] == before;
    var i := IndexOf(s, c);
    assert i >= |before|;
  }

  lemma DigitsOnly(s: string)
    requires AllDigits(s)
    ensures 'e' !in s && '.' !in s
    ensures IndexOf(s, '.') == -1
  {
  }

  lemma ExponentReads(sign: Sign, digits: string)
    requires AllDigits(digits) && digits != ""
    ensures ExponentValue(SignText(sign) + digits) == Signed(sign, digits)
  {
    hide ToNat;
    var s := SignText(sign) + digits;
    if sign.Unsigned? {
      assert s == digits && IsDigit(digits[0]);
    } else {
      assert s[1..] == digits;
    }
  }

  lemma MantissaSplits(whole: string, frac: string, x: string)
    requires AllDigits(whole) && AllDigits(frac)
    ensures
      var s := whole + (if frac == "" then "" else "." + frac) + "e" + x;
      'e' in s && SplitExponential(s) == Exponential(whole, frac, ExponentValue(x))
  {
    hide ExponentValue, IndexOf, AllDigits;
    DigitsOnly(whole);
    DigitsOnly(frac);
    if frac == "" {
      assert whole + "" + "e" + x == whole + ['e'] + x;
      CutAt(whole, 'e', x);
    } else {
      CutAt(whole, '.', frac);
      var mantissa := whole + ['.'] + frac;
      assert mantissa == whole + ("." + frac);
      CutAt(mantissa, 'e', x);
      assert whole + ("." + frac) + "e" + x == mantissa + ['e'] + x;
    }
  }

  /** The rendered text is split into its parts, whatever they are. */
  lemma SplitsRendered(whole: string, frac: string, sign: Sign, exponent: string)
    requires AllDigits(whole) && AllDigits(frac) && AllDigits(exponent) && exponent != ""
    ensures
      var s := Rendered(whole, frac, sign, exponent);
      'e' in s && SplitExponential(s) == Exponential(whole, frac, Signed(sign, exponent))
  {
    hide SplitExponential, ExponentValue, Signed, SignText;
    MantissaSplits(whole, frac, SignText(sign) + exponent);
    ExponentReads(sign, exponent);
    var mantissa := whole + (if frac == "" then "" else "." + frac);
    assert mantissa + "e" + (SignText(sign) + exponent) == mantissa + "e" + SignText(sign) + exponent;
  }

  /** So a number rendered as I.Fe+X scales to IF * 10^(decimals + X - |F|), exactly, for
      all digits and either sign. */
  lemma RenderedExact(whole: string, frac: string, sign: Sign, exponent: string, decimals: nat)
    requires whole != "" && AllDigits(whole) && AllDigits(frac) && AllDigits(exponent) && exponent != ""
    ensures
      var x := Signed(sign, exponent);
      ToAtomicAmount(Number(Rendered(whole, frac, sign, exponent)), decimals, None)
      == if 0 < |whole| + x < |whole| + |frac| then Failure(RepeatRange)
         else Units(ToNat(whole + frac), decimals + x - |frac|)
  {
    hide ToAtomicAmount, SplitExponential, Rendered, ToNat, Units, Signed, AllDigits;
    SplitsRendered(whole, frac, sign, exponent);
    assert Exponential(whole, frac, Signed(sign, exponent)).Valid();
    NumberExact(Rendered(whole, frac, sign, exponent), decimals);
  }

  /** A negative number is refused for its price, rendered with an exponent or not,
      unless its layout fails first. */
  lemma NegativeRefused(rendered: string, decimals: nat)
    requires if 'e' in rendered then '-' in SplitExponential(rendered).Digits() else '-' in rendered
    ensures
      ToAtomicAmount(Number(rendered), decimals, None)
      == if 'e' in rendered && Layout(SplitExponential(rendered)).None? then Failure(RepeatRange) else Failure(BadPrice)
  {
    hide SplitExponential, ParseDecimal, Zeros;
    var text := ExpandExponential(rendered);
    if text.Some? {
      if 'e' in rendered {
        var x := SplitExponential(rendered);
        var i :| 0 <= i < |x.Digits()| && x.Digits()[i] == '-';
        if x.Point() <= 0 {
          assert text.value[|text.value| - |x.Digits()| + i] == '-';
        } else {
          assert text.value[i] == '-';
        }
      }
      MinusIsNoDecimal(text.value);
    }
  }

  /** An amount given outright is taken as it is if and only if it is digits, and at least
      one; the price is not looked at. */
  lemma OverrideExact(price: Price, decimals: nat, amount: string)
    ensures ToAtomicAmount(price, decimals, Some(amount)) ==
            if |amount| > 0 && forall i :: 0 <= i < |amount| ==> '0' <= amount[i] <= '9' then Success(amount)
            else Failure(BadAmount)
  {
  }

  /** The price is a number `String` renders without an exponent, or text. */
  predicate Plain(price: Price) {
    price.Text? || 'e' !in price.rendered
  }

  function Spelled(price: Price): string {
    if price.Text? then price.text else price.rendered
  }

  /** Text and plain numbers alike: a decimal W.F with at most `decimals` fraction digits
      comes to the canonical numeral of the number N with N * 10^|F| == WF * 10^decimals,
      one with more is refused for that, and anything else for its price. */
  lemma PlainExact(price: Price, decimals: nat, d: Decimal)
    requires Plain(price)
    ensures
      var r := ToAtomicAmount(price, decimals, None);
      && (d.Valid() && d.Text() == Spelled(price) ==>
            if |d.Fraction()| > decimals then r == Failure(TooManyDigits)
            else
              && r.Success? && Canonical(r.value)
              && ToNat(r.value) * Pow10(|d.Fraction()|) == ToNat(d.whole + d.Fraction()) * Pow10(decimals))
      && ((forall d': Decimal :: d'.Valid() ==> d'.Text() != Spelled(price)) ==> r == Failure(BadPrice))
  {
    var text := Spelled(price);
    ScaleExact(text, decimals);
    if d.Valid() && d.Text() == text {
      ParseComplete(d);
    }
    hide ParseDecimal, Scale, ToNat, Pow10;
  }

  lemma MinusIsNoDecimal(s: string)
    requires '-' in s
    ensures ParseDecimal(s).None?
  {
    if ParseDecimal(s).Some? {
      NoMinus(ParseDecimal(s).value);
    }
  }

  lemma NoMinus(d: Decimal)
    requires d.Valid()
    ensures '-' !in d.Text()
  {
  }

  lemma NumberBelowOne(x: Exponential, decimals: nat)
    requires x.Valid() && x.Point() <= 0
    ensures Layout(x).Some?
    ensures Scale(Layout(x).value, decimals) == Units(ToNat(x.Digits()), decimals + x.exp - |x.frac|)
  {
    hide ParseDecimal;
    hide Pow10;
    hide Zeros;
    hide ToNat;
    LayoutExact(x);
    var text := Layout(x).value;
    var d: Decimal :| d.Valid() && d.Text() == text && |d.Fraction()| == |x.frac| - x.exp
                      && ToNat(d.whole + d.Fraction()) == ToNat(x.Digits());
    ParseComplete(d);
    var pad := decimals - |d.Fraction()|;
    if pad >= 0 {
      assert d.whole + (d.Fraction() + Zeros(pad)) == (d.whole + d.Fraction()) + Zeros(pad);
      ToNatAppendZeros(d.whole + d.Fraction(), pad);
    }
  }

  lemma NumberAboveOne(x: Exponential, decimals: nat)
    requires x.Valid() && x.Point() > 0 && x.Point() >= |x.Digits()|
    ensures Layout(x).Some?
    ensures Scale(Layout(x).value, decimals) == Units(ToNat(x.Digits()), decimals + x.exp - |x.frac|)
  {
    hide ParseDecimal;
    hide Pow10;
    hide Zeros;
    hide ToNat;
    LayoutExact(x);
    var text := Layout(x).value;
    var d := Decimal(text, None);
    assert d.Text() == text;
    ParseComplete(d);
    assert d.whole + ("" + Zeros(decimals)) == text + Zeros(decimals);
    ToNatAppendZeros(text, decimals);
    PowSum(x.exp - |x.frac|, decimals);
    Associate(ToNat(x.Digits()), Pow10(x.exp - |x.frac|), Pow10(decimals));
  }
}
