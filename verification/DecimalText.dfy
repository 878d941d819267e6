/** How the backend prints on-chain integers as decimal text, and what such text denotes. */
module DecimalText {
  import opened RiskMath

  const CONTRACT_DECIMALS := 7
  const HF_BPS_DENOMINATOR := 10_000
  const LTV_BPS_DENOMINATOR := 100
  const DISPLAY_MAX_HEALTH_FACTOR_BPS := 999_900

  // BigInt operators and the string methods that the printer uses

  /** Division of BigInts truncates toward zero, and the remainder has the sign of the dividend. */
  function TruncDiv(a: int, b: int): int
    requires b > 0
  {
    if a >= 0 then a / b else -((-a) / b)
  }

  function TruncMod(a: int, b: int): int
    requires b > 0
  {
    if a >= 0 then a % b else -((-a) % b)
  }

  function Digit(d: nat): char
    requires d < 10
  {
    '0' + d as char
  }

  function Digits(n: nat): string {
    if n < 10 then [Digit(n)] else Digits(n / 10) + [Digit(n % 10)]
  }

  function ToText(i: int): string {
    if i < 0 then "-" + Digits(-i) else Digits(i)
  }

  function Zeros(n: nat): (s: string)
    ensures |s| == n
  {
    seq(n, _ => '0')
  }

  function PadStart(s: string, width: nat): string {
    if |s| >= width then s else Zeros(width - |s|) + s
  }

  function StripZeros(s: string): string {
    if s != "" && s[|s| - 1] == '0' then StripZeros(s[..|s| - 1]) else s
  }

  function Join(whole: string, fraction: string): string {
    if fraction != "" then whole + "." + fraction else whole
  }

  /** The shape both printers share: whole part, and a fraction without trailing zeros. */
  function Print(raw: int, scale: int, width: nat): string
    requires scale > 0
  {
    var whole, fraction := TruncDiv(raw, scale), TruncMod(raw, scale);
    Join(ToText(whole), StripZeros(PadStart(ToText(fraction), width)))
  }

  function FromContractAmount(raw: int): string {
    Print(raw, Pow10(CONTRACT_DECIMALS), CONTRACT_DECIMALS)
  }

  function ScaledRatioToString(value: int, denominator: int): string
    requires denominator > 0
  {
    var raw := if denominator == HF_BPS_DENOMINATOR && value > DISPLAY_MAX_HEALTH_FACTOR_BPS
               then DISPLAY_MAX_HEALTH_FACTOR_BPS else value;
    Print(raw, denominator, |ToText(denominator)| - 1)
  }

  // What a text denotes, defined on its own

  predicate IsDigit(c: char) {
    '0' <= c <= '9'
  }

  predicate AllDigits(s: string) {
    forall i | 0 <= i < |s| :: IsDigit(s[i])
  }

  function NatOf(s: string): nat
    requires AllDigits(s)
  {
    if s == "" then 0 else 10 * NatOf(s[..|s| - 1]) + (s[|s| - 1] - '0') as nat
  }

  function DotAt(s: string): (d: nat)
    ensures d <= |s|
  {
    if s == "" || s[0] == '.' then 0 else 1 + DotAt(s[1..])
  }

  /** A decimal number: `units` divided by ten to the power of `places`. */
  datatype Decimal = NotANumber | Decimal(units: int, places: nat)

  function ReadUnsigned(s: string): Decimal {
    var d := DotAt(s);
    if d == 0 || !AllDigits(s[..d]) then NotANumber
    else if d == |s| then Decimal(NatOf(s), 0)
    else
      var fraction := s[d + 1..];
      if fraction == "" || !AllDigits(fraction) then NotANumber
      else Decimal(NatOf(s[..d]) * Pow10(|fraction|) + NatOf(fraction), |fraction|)
  }

  function Read(s: string): Decimal {
    if s != "" && s[0] == '-' then
      match ReadUnsigned(s[1..])
      case NotANumber => NotANumber
      case Decimal(units, places) => Decimal(-units, places)
    else ReadUnsigned(s)
  }

  /** The text is a number, and that number is raw / 10^p. */
  predicate Denotes(s: string, raw: int, p: nat) {
    var number := Read(s);
    number.Decimal? && number.units * Pow10(p) == raw * Pow10(number.places)
  }

  /** No zero and no dot at the end of a text with a fraction. */
  predicate Tidy(s: string) {
    '.' in s ==> s[|s| - 1] != '0' && s[|s| - 1] != '.'
  }

  /** No zero at the start but the only one before the dot. */
  predicate Trim(s: string) {
    s != "" && (s[0] == '0' ==> |s| == 1 || s[1] == '.')
  }

  // Digits

  lemma {:induction false} DigitsRead(n: nat)
    ensures Digits(n) != "" && AllDigits(Digits(n)) && NatOf(Digits(n)) == n
  {
    if n >= 10 {
      DigitsRead(n / 10);
      assert Digits(n)[..|Digits(n)| - 1] == Digits(n / 10);
    }
  }

  lemma {:induction false} DigitsStart(n: nat)
    ensures Digits(n) != "" && (Digits(n)[0] == '0' <==> n == 0)
    ensures n == 0 ==> Digits(n) == "0"
  {
    if n >= 10 {
      DigitsStart(n / 10);
    }
  }

  lemma {:induction false} DigitsFit(n: nat, width: nat)
    requires width > 0 && n < Pow10(width)
    ensures |Digits(n)| <= width
  {
    if n >= 10 {
      assert width > 1;
      DigitsFit(n / 10, width - 1);
    }
  }

  lemma {:induction false} DigitsOfPow10(p: nat)
    ensures |Digits(Pow10(p))| == p + 1
  {
    if p > 0 {
      assert Pow10(p) / 10 == Pow10(p - 1);
      DigitsOfPow10(p - 1);
    }
  }

  lemma {:induction false} ZerosRead(n: nat, s: string)
    requires AllDigits(s)
    ensures AllDigits(Zeros(n) + s) && NatOf(Zeros(n) + s) == NatOf(s)
    decreases n + |s|
  {
    var t := Zeros(n) + s;
    if s != "" {
      ZerosRead(n, s[..|s| - 1]);
      assert t[..|t| - 1] == Zeros(n) + s[..|s| - 1];
    } else if n > 0 {
      ZerosRead(n - 1, "");
      assert t[..|t| - 1] == Zeros(n - 1) + "";
    }
  }

  /** Stripping removes zeros only, and divides the number by the matching power of ten. */
  lemma {:induction false} StripRead(s: string)
    requires AllDigits(s)
    ensures var t := StripZeros(s);
            && |t| <= |s| && AllDigits(t)
            && NatOf(s) == NatOf(t) * Pow10(|s| - |t|)
            && (t != "" ==> t[|t| - 1] != '0')
  {
    if s != "" && s[|s| - 1] == '0' {
      var r := s[..|s| - 1];
      StripRead(r);
      var t := StripZeros(r);
      Regroup(10, NatOf(t), Pow10(|r| - |t|));
    } else {
      assert Pow10(0) == 1;
    }
  }

  lemma Regroup(a: int, b: int, c: int)
    ensures a * (b * c) == b * (a * c)
  {
  }

  lemma {:induction false} Pow10Add(m: nat, n: nat)
    ensures Pow10(m + n) == Pow10(m) * Pow10(n)
  {
    if m > 0 {
      Pow10Add(m - 1, n);
      assert Pow10(m + n) == 10 * Pow10(m - 1 + n);
      assert Pow10(m) * Pow10(n) == 10 * (Pow10(m - 1) * Pow10(n));
    }
  }

  lemma {:induction false} DotAfterDigits(s: string, t: string)
    requires AllDigits(s) && (t != "" ==> t[0] == '.')
    ensures DotAt(s + t) == |s|
    decreases |s|
  {
    if s == "" {
      assert s + t == t;
    } else {
      assert (s + t)[1..] == s[1..] + t;
      DotAfterDigits(s[1..], t);
    }
  }

  /** The text of a number without a sign reads as its whole part and its fraction say. */
  lemma PartsRead(whole: string, fraction: string)
    requires whole != "" && AllDigits(whole) && AllDigits(fraction)
    ensures ReadUnsigned(whole) == Decimal(NatOf(whole), 0)
    ensures fraction != "" ==>
              Read(whole + "." + fraction)
              == Decimal(NatOf(whole) * Pow10(|fraction|) + NatOf(fraction), |fraction|)
    ensures Read(whole) == Decimal(NatOf(whole), 0)
  {
    DotAfterDigits(whole, "");
    assert whole + "" == whole && whole[..|whole|] == whole;
    var t := whole + "." + fraction;
    DotAfterDigits(whole, "." + fraction);
    assert t == whole + ("." + fraction);
    assert t[..|whole|] == whole && t[|whole| + 1..] == fraction;
    assert IsDigit(whole[0]);
  }

  // The printers

  /** The fraction of a non-negative number: padded to its width, then stripped. */
  lemma FractionText(fraction: nat, p: nat) returns (text: string)
    requires p > 0 && fraction < Pow10(p)
    ensures text == StripZeros(PadStart(ToText(fraction), p))
    ensures AllDigits(text) && |text| <= p && fraction == NatOf(text) * Pow10(p - |text|)
    ensures text != "" ==> text[|text| - 1] != '0'
  {
    DigitsRead(fraction);
    DigitsFit(fraction, p);
    var digits := Digits(fraction);
    ZerosRead(p - |digits|, digits);
    assert PadStart(digits, p) == Zeros(p - |digits|) + digits;
    StripRead(PadStart(digits, p));
    text := StripZeros(PadStart(digits, p));
  }

  lemma ScaleParts(whole: int, part: int, a: int, b: int, c: int)
    requires a == b * c
    ensures (whole * b + part) * a == (whole * a + part * c) * b
  {
    assert (whole * b + part) * a == whole * b * a + part * a;
    assert (whole * a + part * c) * b == whole * a * b + part * c * b;
    Regroup(whole, b, a);
    Regroup(part, b, c);
    assert whole * b * a == b * (whole * a) && part * a == b * (part * c);
  }

  lemma DivMod(a: nat, b: nat) returns (quotient: nat, remainder: nat)
    requires b > 0
    ensures quotient == a / b && remainder == a % b
    ensures a == quotient * b + remainder && remainder < b
  {
    quotient, remainder := a / b, a % b;
  }

  lemma JoinDenotes(whole: nat, text: string, raw: nat, p: nat)
    requires AllDigits(text) && |text| <= p && (text != "" ==> text[|text| - 1] != '0')
    requires raw == whole * Pow10(p) + NatOf(text) * Pow10(p - |text|)
    ensures Denotes(Join(Digits(whole), text), raw, p) && Tidy(Join(Digits(whole), text))
  {
    DigitsRead(whole);
    PartsRead(Digits(whole), text);
    Pow10Add(|text|, p - |text|);
    ScaleParts(whole, NatOf(text), Pow10(p), Pow10(|text|), Pow10(p - |text|));
    var t := Join(Digits(whole), text);
    if text == "" {
      assert Pow10(0) == 1;
      assert forall i | 0 <= i < |t| :: IsDigit(t[i]);
    } else {
      assert t[|t| - 1] == text[|text| - 1];
    }
  }

  lemma PrintNat(raw: nat, scale: nat, width: nat, whole: nat, fraction: nat)
    requires scale > 0 && whole == raw / scale && fraction == raw % scale
    ensures Print(raw, scale, width) == Join(Digits(whole), StripZeros(PadStart(ToText(fraction), width)))
  {
  }

  /** Printing a non-negative integer at scale 10^p gives a tidy text that denotes exactly raw / 10^p. */
  lemma PrintDenotes(raw: nat, p: nat)
    requires p > 0
    ensures Denotes(Print(raw, Pow10(p), p), raw, p)
    ensures Tidy(Print(raw, Pow10(p), p)) && Trim(Print(raw, Pow10(p), p))
  {
    var whole, fraction := DivMod(raw, Pow10(p));
    var text := FractionText(fraction, p);
    PrintNat(raw, Pow10(p), p, whole, fraction);
    JoinDenotes(whole, text, raw, p);
    DigitsStart(whole);
  }

  /** Every amount that is not negative is shown exactly. */
  lemma AmountsAreExact(raw: nat)
    ensures Denotes(FromContractAmount(raw), raw, CONTRACT_DECIMALS)
    ensures Tidy(FromContractAmount(raw)) && Trim(FromContractAmount(raw))
  {
    PrintDenotes(raw, CONTRACT_DECIMALS);
  }

  lemma Cancel(a: int, b: int, c: int)
    requires c > 0 && a * c == b * c
    ensures a == b
  {
    assert (a - b) * c == 0;
  }

  lemma SameNumber(s: string, a: int, b: int, p: nat)
    requires Denotes(s, a, p) && Denotes(s, b, p)
    ensures a == b
  {
    Cancel(a, b, Pow10(Read(s).places));
  }

  /** Different amounts are never shown alike. */
  lemma AmountsAreDistinct(a: nat, b: nat)
    requires FromContractAmount(a) == FromContractAmount(b)
    ensures a == b
  {
    AmountsAreExact(a);
    AmountsAreExact(b);
    SameNumber(FromContractAmount(a), a, b, CONTRACT_DECIMALS);
  }

  lemma Denominators()
    ensures Pow10(4) == HF_BPS_DENOMINATOR && |ToText(HF_BPS_DENOMINATOR)| == 5
    ensures Pow10(2) == LTV_BPS_DENOMINATOR && |ToText(LTV_BPS_DENOMINATOR)| == 3
  {
    assert Pow10(2) == 100 && Pow10(4) == 10_000;
    DigitsOfPow10(4);
    DigitsOfPow10(2);
  }

  /** A health factor is shown exactly up to 99.99, and as 99.99 above; an LTV is always shown exactly, in percent. */
  lemma RatiosAreExact(raw: nat)
    ensures Denotes(ScaledRatioToString(raw, HF_BPS_DENOMINATOR),
                    if raw < DISPLAY_MAX_HEALTH_FACTOR_BPS then raw else DISPLAY_MAX_HEALTH_FACTOR_BPS, 4)
    ensures Denotes(ScaledRatioToString(raw, LTV_BPS_DENOMINATOR), raw, 2)
    ensures Tidy(ScaledRatioToString(raw, HF_BPS_DENOMINATOR)) && Tidy(ScaledRatioToString(raw, LTV_BPS_DENOMINATOR))
    ensures Trim(ScaledRatioToString(raw, HF_BPS_DENOMINATOR)) && Trim(ScaledRatioToString(raw, LTV_BPS_DENOMINATOR))
  {
    Denominators();
    PrintDenotes(if raw < DISPLAY_MAX_HEALTH_FACTOR_BPS then raw else DISPLAY_MAX_HEALTH_FACTOR_BPS, 4);
    PrintDenotes(raw, 2);
  }

  // Negative amounts

  lemma {:induction false} StripKeepsSign(s: string, k: nat)
    requires k < |s| && s[k] == '-'
    ensures k < |StripZeros(s)| <= |s| && StripZeros(s)[k] == '-'
    decreases |s|
  {
    if s[|s| - 1] == '0' {
      StripKeepsSign(s[..|s| - 1], k);
    }
  }

  /** A sign inside the fraction spoils the text. */
  lemma SignedFraction(whole: string, fraction: string, k: nat)
    requires whole != "" && AllDigits(whole) && k < |fraction| && fraction[k] == '-'
    ensures Read(whole + "." + fraction).NotANumber?
    ensures Read("-" + whole + "." + fraction).NotANumber?
  {
    var t := whole + "." + fraction;
    assert t == whole + ("." + fraction);
    DotAfterDigits(whole, "." + fraction);
    assert t[|whole| + 1..] == fraction && !IsDigit(fraction[k]);
    assert ReadUnsigned(t).NotANumber?;
    assert IsDigit(whole[0]);
    var u := "-" + whole + "." + fraction;
    assert u[1..] == t;
  }

  lemma SignedPadded(fraction: nat, width: nat) returns (padded: string, k: nat)
    requires fraction > 0
    ensures padded == PadStart(ToText(-(fraction as int)), width)
    ensures k < |padded| && padded[k] == '-'
  {
    var signed := ToText(-(fraction as int));
    padded := PadStart(signed, width);
    k := |padded| - |signed|;
  }

  lemma PrintNegative(raw: int, scale: nat, width: nat, whole: nat, fraction: nat)
    requires raw < 0 && scale > 0 && whole == (-raw) / scale && fraction == (-raw) % scale
    ensures Print(raw, scale, width)
         == Join(ToText(-(whole as int)), StripZeros(PadStart(ToText(-(fraction as int)), width)))
  {
  }

  /** A negative amount with a fraction prints a sign inside the fraction. */
  lemma NegativeFraction(raw: int)
    requires raw < 0 && (-raw) % Pow10(CONTRACT_DECIMALS) != 0
    ensures Read(FromContractAmount(raw)).NotANumber?
  {
    var whole, fraction := DivMod(-raw, Pow10(CONTRACT_DECIMALS));
    PrintNegative(raw, Pow10(CONTRACT_DECIMALS), CONTRACT_DECIMALS, whole, fraction);
    var padded, k := SignedPadded(fraction, CONTRACT_DECIMALS);
    SignedJoin(whole, padded, k);
  }

  lemma SignedJoin(whole: nat, padded: string, k: nat)
    requires k < |padded| && padded[k] == '-'
    ensures Read(Join(ToText(-(whole as int)), StripZeros(padded))).NotANumber?
  {
    DigitsRead(whole);
    StripKeepsSign(padded, k);
    SignedFraction(Digits(whole), StripZeros(padded), k);
  }

  /** A negative whole amount prints as such. */
  lemma NegativeWhole(raw: int)
    requires raw < 0 && (-raw) % Pow10(CONTRACT_DECIMALS) == 0
    ensures Denotes(FromContractAmount(raw), raw, CONTRACT_DECIMALS)
  {
    var whole, fraction := DivMod(-raw, Pow10(CONTRACT_DECIMALS));
    PrintNegative(raw, Pow10(CONTRACT_DECIMALS), CONTRACT_DECIMALS, whole, 0);
    ZeroFraction();
    WholeDenotes(whole, raw, CONTRACT_DECIMALS);
  }

  lemma ZeroFraction()
    ensures StripZeros(PadStart(ToText(0), CONTRACT_DECIMALS)) == ""
  {
    var text := FractionText(0, CONTRACT_DECIMALS);
    if text != "" {
      LastDigitCounts(text);
    }
  }

  lemma WholeDenotes(whole: nat, raw: int, p: nat)
    requires -raw == whole * Pow10(p)
    ensures Denotes(ToText(-(whole as int)), raw, p)
  {
    DigitsRead(whole);
    PartsRead(Digits(whole), "");
    assert ("-" + Digits(whole))[1..] == Digits(whole);
    assert Pow10(0) == 1;
    assert -(whole as int) * Pow10(p) == -(whole * Pow10(p));
  }

  lemma LastDigitCounts(s: string)
    requires s != "" && AllDigits(s) && s[|s| - 1] != '0'
    ensures NatOf(s) > 0
  {
  }

  /**
   * When the text of an amount is right: exactly for amounts that are not negative, and for
   * negative ones without a fraction. All others print a second sign, as in "-1.-5".
   */
  lemma AmountTextIsRight(raw: int)
    ensures Denotes(FromContractAmount(raw), raw, CONTRACT_DECIMALS)
       <==> raw >= 0 || (-raw) % Pow10(CONTRACT_DECIMALS) == 0
  {
    if raw >= 0 {
      AmountsAreExact(raw);
    } else if (-raw) % Pow10(CONTRACT_DECIMALS) == 0 {
      NegativeWhole(raw);
    } else {
      NegativeFraction(raw);
    }
  }

  /** The example: minus one and a half. */
  lemma MinusOneAndAHalf()
    ensures FromContractAmount(-15_000_000) == "-1.-5"
  {
    assert Pow10(7) == 10_000_000;
    FiveMillion();
    StripFiveMillion();
    assert PadStart("-5000000", 7) == "-5000000" && ToText(-1) == "-1";
  }

  lemma FiveMillion()
    ensures ToText(-5_000_000) == "-5000000"
  {
    assert Digits(5_000) == "5000";
    assert Digits(50_000) == "50000";
    assert Digits(500_000) == "500000";
  }

  lemma StripFiveMillion()
    ensures StripZeros("-5000000") == "-5"
  {
    assert "-5000000" == "-500000" + "0" && "-500000" == "-50000" + "0" && "-50000" == "-5000" + "0";
    assert "-5000" == "-500" + "0" && "-500" == "-50" + "0" && "-50" == "-5" + "0";
    StripLast("-500000");
    StripLast("-50000");
    StripLast("-5000");
    StripLast("-500");
    StripLast("-50");
    StripLast("-5");
  }

  lemma StripLast(s: string)
    ensures StripZeros(s + "0") == StripZeros(s)
  {
    assert (s + "0")[..|s|] == s;
  }
}
