/**
  Amounts on the wire: the provider takes and reports naira as decimal text, the
  books count whole kobo. Decimal arithmetic is exact here.
 */
module BachsAmount {
  import opened Tables
  import opened Books
  import opened Collections

  function Power(n: nat): (r: nat)
    ensures r >= 1
  {
    if n == 0 then 1 else 10 * Power(n - 1)
  }

  function Abs(k: int): nat {
    if k < 0 then -k else k
  }

  // ---------- Printing ----------

  predicate IsDigit(c: char) {
    '0' <= c <= '9'
  }

  predicate AllDigits(text: string) {
    forall i :: 0 <= i < |text| ==> IsDigit(text[i])
  }

  function DigitOf(n: nat): (c: char)
    requires n < 10
    ensures IsDigit(c)
  {
    '0' + n as char
  }

  function Digits(n: nat): (text: string)
    ensures text != "" && AllDigits(text)
  {
    if n < 10 then [DigitOf(n)] else Digits(n / 10) + [DigitOf(n % 10)]
  }

  /** Formatting with two decimals writes the digits of the scaled value and puts the point before the last two. */
  function Padded(text: string): (r: string)
    requires text != "" && AllDigits(text)
    ensures |r| >= 3 && AllDigits(r)
  {
    if |text| == 1 then "00" + text else if |text| == 2 then "0" + text else text
  }

  function Magnitude(n: nat): string {
    var digits := Padded(Digits(n));
    digits[..|digits| - 2] + ("." + digits[|digits| - 2..])
  }

  function ToBachsAmount(kobo: int): string {
    if kobo < 0 then "-" + Magnitude(-kobo) else Magnitude(kobo)
  }

  // ---------- Reading ----------

  /** A decimal number, `mantissa * 10^exponent`. */
  datatype Number = Number(mantissa: int, exponent: int)

  predicate IsSpace(c: char) {
    c in {' ', '\t', '\n', '\r', '\U{000B}', '\U{000C}', '\U{00A0}', '\U{1680}', '\U{2028}', '\U{2029}', '\U{202F}',
          '\U{205F}', '\U{3000}', '\U{FEFF}'} || '\U{2000}' <= c <= '\U{200A}'
  }

  function TrimStart(text: string): string {
    if text != "" && IsSpace(text[0]) then TrimStart(text[1..]) else text
  }

  predicate Starts(text: string, c: char) {
    text != "" && text[0] == c
  }

  function Unsigned(text: string): string {
    if Starts(text, '-') || Starts(text, '+') then text[1..] else text
  }

  /** The longest run of digits a text starts with. */
  function DigitRun(text: string): (run: string)
    ensures run <= text && AllDigits(run)
  {
    if text != "" && IsDigit(text[0]) then [text[0]] + DigitRun(text[1..]) else ""
  }

  function Value(digits: string): nat
    requires AllDigits(digits)
  {
    if digits == "" then 0
    else
      var last := |digits| - 1;
      10 * Value(digits[..last]) + (digits[last] - '0') as int
  }

  function Signed(text: string, magnitude: nat): int {
    var plain: int := magnitude;
    if Starts(text, '-') then -plain else plain
  }

  function Exponent(text: string): int {
    if Starts(text, 'e') || Starts(text, 'E')
    then Signed(text[1..], Value(DigitRun(Unsigned(text[1..]))))
    else 0
  }

  /** What follows the decimal point, if there is one. */
  function FractionRun(text: string): (run: string)
    ensures AllDigits(run)
    ensures run != "" ==> Starts(text, '.') && run <= text[1..]
  {
    if Starts(text, '.') then DigitRun(text[1..]) else ""
  }

  function AfterFraction(text: string): string {
    if Starts(text, '.') then text[1 + |FractionRun(text)|..] else text
  }

  function ParseUnsigned(text: string): (r: Option<Number>)
    ensures r.Some? ==> r.value.mantissa >= 0
  {
    var whole := DigitRun(text);
    var rest := text[|whole|..];
    var fraction := FractionRun(rest);
    if whole + fraction == "" then None
    else Some(Number(Value(whole + fraction), Exponent(AfterFraction(rest)) - |fraction|))
  }

  /** The number a text starts with; none for what reads as NaN or as infinite. */
  function ParseFloat(text: string): Option<Number> {
    var signed := TrimStart(text);
    var number := ParseUnsigned(Unsigned(signed));
    if number.None? then None else Some(number.value.(mantissa := Signed(signed, number.value.mantissa)))
  }

  /** The integer nearest to `number`, the larger one of two equally near. */
  function Round(number: Number): int {
    if number.exponent >= 0 then number.mantissa * Power(number.exponent)
    else
      var scale := Power(-number.exponent);
      (2 * number.mantissa + scale) / (2 * scale)
  }

  function ToKobo(naira: Option<Number>): Option<int> {
    if naira.None? then None else Some(Round(naira.value.(exponent := naira.value.exponent + 2)))
  }

  function FromBachsAmount(text: string): Option<int> {
    ToKobo(ParseFloat(text))
  }

  // ---------- What rounding means ----------

  /** `kobo - 1/2 <= number < kobo + 1/2`, without fractions. */
  predicate IsNearest(kobo: int, number: Number) {
    if number.exponent >= 0 then kobo == number.mantissa * Power(number.exponent)
    else
      var scale := Power(-number.exponent);
      (2 * kobo - 1) * scale <= 2 * number.mantissa < (2 * kobo + 1) * scale
  }

  lemma DivisionBounds(a: int, d: int, q: int)
    requires d > 0
    ensures a / d == q <==> q * d <= a < (q + 1) * d
  {
    var r := a / d;
    assert a == r * d + a % d;
    if q < r {
      ProductsApart(q, r, d);
    } else if r < q {
      ProductsApart(r, q, d);
    }
  }

  lemma ProductsApart(q: int, r: int, d: int)
    requires d > 0 && q < r
    ensures (q + 1) * d <= r * d && (q + 1) * d == q * d + d
  {
    assert r * d - (q + 1) * d == (r - q - 1) * d;
  }

  lemma RoundIsNearest(kobo: int, number: Number)
    ensures Round(number) == kobo <==> IsNearest(kobo, number)
  {
    if number.exponent < 0 {
      var scale := Power(-number.exponent);
      DivisionBounds(2 * number.mantissa + scale, 2 * scale, kobo);
      assert kobo * (2 * scale) == 2 * kobo * scale;
      assert (kobo + 1) * (2 * scale) == (2 * kobo + 1) * scale + scale;
      assert (2 * kobo - 1) * scale == 2 * kobo * scale - scale;
    }
  }

  // ---------- The round trip ----------

  lemma {:induction false} DigitsHaveValue(n: nat)
    ensures Value(Digits(n)) == n
  {
    if n >= 10 {
      DigitsHaveValue(n / 10);
      var text := Digits(n);
      assert text[..|text| - 1] == Digits(n / 10);
    }
  }

  lemma {:induction false} LeadingZero(digits: string)
    requires AllDigits(digits)
    ensures AllDigits("0" + digits) && Value("0" + digits) == Value(digits)
  {
    var text := "0" + digits;
    if digits != "" {
      LeadingZero(digits[..|digits| - 1]);
      assert text[..|text| - 1] == "0" + digits[..|digits| - 1];
    }
  }

  lemma PaddingKeepsValue(digits: string)
    requires digits != "" && AllDigits(digits)
    ensures Value(Padded(digits)) == Value(digits)
  {
    LeadingZero(digits);
    if |digits| == 1 {
      LeadingZero("0" + digits);
      assert "0" + ("0" + digits) == "00" + digits;
    }
  }

  lemma {:induction false} RunStops(digits: string, rest: string)
    requires AllDigits(digits) && (rest == "" || !IsDigit(rest[0]))
    ensures DigitRun(digits + rest) == digits
  {
    if digits == "" {
      assert digits + rest == rest;
    } else {
      assert (digits + rest)[1..] == digits[1..] + rest;
      RunStops(digits[1..], rest);
    }
  }

  /** A plain decimal reads as its digits, scaled by the number of decimals. */
  lemma PlainDecimal(whole: string, fraction: string)
    requires whole != "" && AllDigits(whole) && AllDigits(fraction)
    ensures ParseUnsigned(whole + ("." + fraction)) == Some(Number(Value(whole + fraction), -|fraction|))
  {
    var rest := "." + fraction;
    RunStops(whole, rest);
    assert (whole + rest)[|whole|..] == rest && rest[1..] == fraction;
    RunStops(fraction, "");
    assert fraction + "" == fraction;
    assert rest[1 + |fraction|..] == "";
  }

  lemma RoundTrip(kobo: int)
    ensures FromBachsAmount(ToBachsAmount(kobo)) == Some(kobo)
  {
    var text := Magnitude(Abs(kobo));
    MagnitudeReads(Abs(kobo));
    if kobo < 0 {
      NegativeText(text);
    } else {
      PositiveText(text);
    }
    RoundWhole(kobo);
  }

  lemma MagnitudeReads(n: nat)
    ensures Magnitude(n) != "" && IsDigit(Magnitude(n)[0])
    ensures ParseUnsigned(Magnitude(n)) == Some(Number(n, -2))
  {
    var digits := Padded(Digits(n));
    var whole, fraction := digits[..|digits| - 2], digits[|digits| - 2..];
    DigitsHaveValue(n);
    PaddingKeepsValue(Digits(n));
    assert whole + fraction == digits;
    PlainDecimal(whole, fraction);
    assert Magnitude(n)[0] == whole[0];
  }

  lemma RoundWhole(kobo: int)
    ensures Round(Number(kobo, 0)) == kobo
  {
    assert Power(0) == 1;
  }

  lemma PositiveText(text: string)
    requires text != "" && IsDigit(text[0])
    ensures ParseFloat(text) == ParseUnsigned(text)
  {
    assert TrimStart(text) == text;
    assert Unsigned(text) == text;
  }

  lemma NegativeText(text: string)
    requires text != "" && ParseUnsigned(text).Some?
    ensures ParseFloat("-" + text) == Some(ParseUnsigned(text).value.(mantissa := -ParseUnsigned(text).value.mantissa))
  {
    var signed := "-" + text;
    assert TrimStart(signed) == signed;
    assert Unsigned(signed) == text;
  }

  predicate TwoDecimals(text: string) {
    |text| >= 4 && text[|text| - 3] == '.' && AllDigits(text[..|text| - 3]) && AllDigits(text[|text| - 2..])
  }

  lemma PrintsTwoDecimals(kobo: nat)
    ensures TwoDecimals(ToBachsAmount(kobo))
  {
    var digits := Padded(Digits(kobo));
    var text := ToBachsAmount(kobo);
    assert text[..|text| - 3] == digits[..|digits| - 2];
    assert text[|text| - 2..] == digits[|digits| - 2..];
  }

  // ---------- How texts read ----------

  lemma PointReads(fraction: string, rest: string)
    requires AllDigits(fraction) && (rest == "" || !IsDigit(rest[0]))
    ensures FractionRun("." + (fraction + rest)) == fraction && AfterFraction("." + (fraction + rest)) == rest
  {
    RunStops(fraction, rest);
    assert ("." + (fraction + rest))[1..] == fraction + rest;
    assert ("." + (fraction + rest))[1 + |fraction|..] == rest;
  }

  /** Digits, a point, digits: read as that decimal number, whatever text but an exponent follows. */
  lemma UnsignedReads(whole: string, fraction: string, rest: string)
    requires AllDigits(whole) && AllDigits(fraction) && whole != ""
    requires rest == "" || !(IsDigit(rest[0]) || rest[0] == 'e' || rest[0] == 'E')
    ensures ParseUnsigned(whole + ("." + (fraction + rest))) == Some(Number(Value(whole + fraction), -|fraction|))
  {
    var point := "." + (fraction + rest);
    RunStops(whole, point);
    assert (whole + point)[|whole|..] == point;
    PointReads(fraction, rest);
  }

  predicate AllBlank(text: string) {
    forall i :: 0 <= i < |text| ==> text[i] in {' ', '\t', '\n'}
  }

  predicate IsSign(sign: string) {
    sign == "" || sign == "+" || sign == "-"
  }

  function Apply(sign: string, magnitude: nat): int {
    if sign == "-" then -1 * magnitude else magnitude
  }

  /** Blanks in front of a number are skipped, and a sign is applied to it. */
  lemma SignedReads(blanks: string, sign: string, text: string, number: Number)
    requires AllBlank(blanks) && IsSign(sign)
    requires text != "" && IsDigit(text[0]) && number.mantissa >= 0
    requires ParseUnsigned(text) == Some(number)
    ensures ParseFloat(blanks + (sign + text)) == Some(Number(Apply(sign, number.mantissa), number.exponent))
  {
    SignReads(sign, text);
    BlanksTrimmed(blanks, sign + text);
  }

  /** An exponent scales by that power of ten. */
  lemma ExponentReads(mark: char, sign: string, digits: string, rest: string)
    requires (mark == 'e' || mark == 'E') && IsSign(sign) && digits != "" && AllDigits(digits)
    requires rest == "" || !IsDigit(rest[0])
    ensures Exponent([mark] + (sign + (digits + rest))) == Apply(sign, Value(digits))
  {
    RunStops(digits, rest);
    assert (digits + rest)[0] == digits[0];
    SignReads(sign, digits + rest);
    ExponentFollows(mark, sign + (digits + rest));
  }

  lemma ExponentFollows(mark: char, text: string)
    requires mark == 'e' || mark == 'E'
    ensures Exponent([mark] + text) == Signed(text, Value(DigitRun(Unsigned(text))))
  {
    assert ([mark] + text)[1..] == text;
  }

  lemma SignReads(sign: string, text: string)
    requires IsSign(sign) && text != "" && IsDigit(text[0])
    ensures !IsSpace((sign + text)[0])
    ensures Unsigned(sign + text) == text && (Starts(sign + text, '-') <==> sign == "-")
  {
    if sign == "" {
      assert sign + text == text;
    } else {
      assert (sign + text)[1..] == text;
    }
  }

  lemma {:induction false} BlanksTrimmed(blanks: string, text: string)
    requires AllBlank(blanks)
    requires text != "" && !IsSpace(text[0])
    ensures TrimStart(blanks + text) == text
  {
    if blanks != "" {
      BlanksTrimmed(blanks[1..], text);
      assert (blanks + text)[1..] == blanks[1..] + text;
    } else {
      assert blanks + text == text;
    }
  }

  /** Digits count in tens, */
  lemma TensCount(n: nat, digits: string, d: char)
    requires AllDigits(digits) && IsDigit(d)
    ensures AllDigits(digits + [d]) && Value(digits + [d]) == 10 * Value(digits) + (d - '0') as int
    ensures Power(n + 1) == 10 * Power(n) && Power(0) == 1
  {
    assert (digits + [d])[..|digits|] == digits;
  }

  /** and a kobo is the nearest hundredth. */
  lemma KoboIsHundredth(n: nat)
    ensures ToKobo(Some(Number(n, -2))) == Some(n) && ToKobo(Some(Number(n, 0))) == Some(100 * n)
    ensures ToKobo(Some(Number(n, -3))) == Some((n + 5) / 10)
  {
    assert Power(1) == 10 * Power(0);
    assert Power(2) == 10 * Power(1);
  }

  // ---------- Settlement ----------

  /** Completion as the notifications call it: NaN is refused where zero is. */
  function CompleteWithText(s: State, p: nat, lookup: Lookup, charge: nat, amount: string): Result {
    var kobo := FromBachsAmount(amount);
    CompletePayment(s, p, lookup, charge, if kobo.Some? then kobo.value else 0)
  }

  /** Everything completion demands apart from the amount. */
  predicate ReadyToComplete(s: State, p: nat, lookup: Lookup, charge: nat)
    requires p < |s.pendings|
  {
    var row := s.pendings[p];
    && Identifies(lookup, p, row)
    && !AlreadyPaid(s, row.reference)
    && row.status.Pending?
    && (row.checkout.Some? ==> lookup.checkout == row.checkout)
    && (Organization(row.organization) in s.wallets ==> s.wallets[Organization(row.organization)].active)
    && (row.ServiceFee() > 0 && Platform in s.wallets ==> s.wallets[Platform].active)
    && !ChargeUsed(s, charge)
    && (DueOpen(s, row.due) ==> !DueRecorded(s, row.due))
  }

  predicate Payable(amount: int) {
    0 < amount <= MAX_SAFE_INTEGER
  }

  lemma CompletionChecks(s: State, p: nat, lookup: Lookup, charge: nat, amount: int)
    requires p < |s.pendings|
    ensures (CompletePayment(s, p, lookup, charge, amount).outcome == Credited)
       <==> ReadyToComplete(s, p, lookup, charge) && amount == s.pendings[p].Expected() && Payable(amount)
  {
  }

  /** An amount is credited exactly when it is within half a kobo of what the checkout asked for. */
  lemma CreditedExactly(s: State, p: nat, lookup: Lookup, charge: nat, amount: string)
    requires p < |s.pendings|
    ensures (CompleteWithText(s, p, lookup, charge, amount).outcome == Credited)
       <==> && ReadyToComplete(s, p, lookup, charge)
            && Payable(s.pendings[p].Expected()) && ReadsAs(amount, s.pendings[p].Expected())
  {
    var kobo := FromBachsAmount(amount);
    CompletionChecks(s, p, lookup, charge, if kobo.Some? then kobo.value else 0);
    KoboExactly(ParseFloat(amount), s.pendings[p].Expected());
  }

  /** The number is within half a kobo of `kobo`. */
  predicate IsNearestKobo(naira: Option<Number>, kobo: int) {
    naira.Some? && IsNearest(kobo, naira.value.(exponent := naira.value.exponent + 2))
  }

  predicate ReadsAs(amount: string, kobo: int) {
    IsNearestKobo(ParseFloat(amount), kobo)
  }

  lemma KoboExactly(naira: Option<Number>, kobo: int)
    ensures ToKobo(naira) == Some(kobo) <==> IsNearestKobo(naira, kobo)
  {
    if naira.Some? {
      RoundIsNearest(kobo, naira.value.(exponent := naira.value.exponent + 2));
    }
  }

  /** A provider that echoes the checkout's amount always passes the settlement check. */
  lemma EchoIsCredited(s: State, p: nat, lookup: Lookup, charge: nat)
    requires p < |s.pendings|
    ensures (CompleteWithText(s, p, lookup, charge, ToBachsAmount(s.pendings[p].Expected())).outcome == Credited)
       <==> ReadyToComplete(s, p, lookup, charge) && Payable(s.pendings[p].Expected())
  {
    RoundTrip(s.pendings[p].Expected());
    CompletionChecks(s, p, lookup, charge, s.pendings[p].Expected());
  }
}
