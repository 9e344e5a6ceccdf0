/** The validated value types of the dial API: `Percent`, `Backlight`, the
    dial `Id` and the `Status` record a dial reports. */
module Dial {
  import opened Wrappers
  import opened Text

  /** The representation behind `Percent`: a `u8`. */
  datatype PercentRepr = MkPercent(value: U8)

  /** A `Percent` holds a `u8` in 0..=100; no other value can be built. */
  type Percent = p: PercentRepr | p.value <= 100 witness MkPercent(0)

  /** `PercentError`: the rejected `u8`. */
  datatype PercentError = PercentError(value: U8)

  /** `Percent::new`. */
  function NewPercent(v: U8): (r: Result<Percent, PercentError>)
    ensures r.Ok? <==> v <= 100
    ensures r.Ok? ==> r.value.value == v
    ensures r.Err? ==> r.error == PercentError(v)
  {
    if v > 100 then Err(PercentError(v)) else Ok(MkPercent(v))
  }

  /** `From<Percent> for u8`. */
  function PercentToU8(p: Percent): (v: U8)
    ensures v <= 100
    ensures NewPercent(v) == Ok(p)
  {
    p.value
  }

  /** `TryFrom<u8> for Percent`: the same checks as `Percent::new`. */
  function PercentTryFrom(v: U8): (r: Result<Percent, PercentError>)
    ensures r == NewPercent(v)
    ensures r.Ok? ==> PercentToU8(r.value) == v
  {
    NewPercent(v)
  }

  /** Every `u8` up to 100 makes a `Percent` that converts back to it. */
  lemma PercentU8RoundTrip(v: U8)
    requires v <= 100
    ensures NewPercent(v).Ok? && PercentToU8(NewPercent(v).value) == v
  {
  }

  /** `Display` (and `Debug`) of a `Percent`: the number, then one `%`. */
  function FormatPercent(p: Percent): (s: string)
    ensures |s| >= 2 && s[|s| - 1] == '%'
    ensures s[..|s| - 1] == Decimal(p.value)
  {
    Decimal(p.value) + "%"
  }

  /** `PercentParseError`. */
  datatype PercentParseError =
    | InvalidPercent(percent: PercentError)
    | NotAU8(kind: IntErrorKind)

  /** The text `Percent::from_str` hands to `u8::from_str`: the input trimmed,
      then every trailing `%` removed. */
  function PercentDigits(s: string): (d: string)
    ensures d == [] || d[|d| - 1] != '%'
  {
    TrimEndMatches(Trim(s), '%')
  }

  /** `FromStr for Percent`. */
  function ParsePercent(s: string): (r: Result<Percent, PercentParseError>)
    ensures r.Ok? ==> ParseU8(PercentDigits(s)) == Ok(r.value.value)
    ensures r.Err? && r.error.NotAU8? ==> ParseU8(PercentDigits(s)) == Err(r.error.kind)
    ensures r.Err? && r.error.InvalidPercent? ==>
              var v := r.error.percent.value; v > 100 && ParseU8(PercentDigits(s)) == Ok(v)
  {
    match ParseU8(PercentDigits(s))
    case Err(kind) => Err(NotAU8(kind))
    case Ok(v) =>
      match NewPercent(v)
      case Err(e) => Err(InvalidPercent(e))
      case Ok(p) => Ok(p)
  }

  /** Parsing the `Display` of a `Percent` gives the same `Percent` back. */
  lemma ParseFormatPercent(p: Percent)
    ensures ParsePercent(FormatPercent(p)) == Ok(p)
  {
    var d := Decimal(p.value);
    var pct: string := seq(1, _ => '%');
    assert pct == "%";
    assert [] + d + pct + [] == d + "%";
    ParsePercentPadded([], p.value, 1, []);
  }

  /** Surrounding whitespace and any number of trailing `%` signs are
      ignored: a decimal `u8` written that way parses exactly as the number. */
  lemma {:induction false} ParsePercentPadded(w1: string, v: U8, k: nat, w2: string)
    requires AllWhitespace(w1) && AllWhitespace(w2)
    ensures ParsePercent(w1 + Decimal(v) + seq(k, _ => '%') + w2)
            == (if v <= 100 then Ok(MkPercent(v)) else Err(InvalidPercent(PercentError(v))))
  {
    var d := Decimal(v);
    var x := d + seq(k, _ => '%');
    assert x[0] == d[0];
    assert x[|x| - 1] != '%' ==> k == 0;
    assert Trimmed(x) by {
      if k == 0 { assert x == d; }
    }
    assert w1 + d + seq(k, _ => '%') + w2 == w1 + x + w2;
    TrimPadded(w1, x, w2);
    TrimEndMatchesPadded(d, '%', k);
    ParseU8Decimal(v);
  }

  /** Text that is already trimmed and has no trailing `%` reaches
      `u8::from_str` unchanged. */
  lemma PercentDigitsUnchanged(s: string)
    requires Trimmed(s) && (s == [] || s[|s| - 1] != '%')
    ensures PercentDigits(s) == s
  {
    TrimPadded([], s, []);
    assert [] + s + [] == s;
    TrimEndMatchesPadded(s, '%', 0);
    assert s + seq(0, _ => '%') == s;
  }

  /** A number above 100 is rejected as an invalid percent, not as a parse error. */
  lemma ParsePercentTooLarge(v: U8)
    requires v > 100
    ensures ParsePercent(Decimal(v)) == Err(InvalidPercent(PercentError(v)))
  {
    var d := Decimal(v);
    assert IsDigit(d[0]) && IsDigit(d[|d| - 1]);
    PercentDigitsUnchanged(d);
    ParseU8Decimal(v);
  }

  /** Text with no digits left once whitespace and `%` signs are removed is
      a `NotAU8` error of kind `Empty`. */
  lemma ParsePercentBlank(w1: string, k: nat, w2: string)
    requires AllWhitespace(w1) && AllWhitespace(w2)
    ensures ParsePercent(w1 + seq(k, _ => '%') + w2) == Err(NotAU8(Empty))
  {
    var x := seq(k, _ => '%');
    assert Trimmed(x);
    TrimPadded(w1, x, w2);
    TrimEndMatchesPadded([], '%', k);
    assert [] + x == x;
  }

  /** A letter where a digit should be is a `NotAU8` error of kind
      `InvalidDigit`. */
  lemma ParsePercentInvalidDigit()
    ensures ParsePercent("ab") == Err(NotAU8(InvalidDigit))
  {
    var s := "ab";
    assert !IsWhitespace(s[0]) && !IsWhitespace(s[1]);
    PercentDigitsUnchanged(s);
    assert !IsDigit(s[0]);
    assert ParseU8(s) == Err(InvalidDigit);
  }

  /** `u8::from_str` overflows on "256": 25 * 10 + 6 is past 255. */
  lemma ParseU8Overflow()
    ensures ParseU8("256") == Err(PosOverflow)
  {
    var s := "256";
    assert s[1..] == "56" && s[1..][1..] == "6";
    assert ScanU8("6", 25) == Err(PosOverflow);
    assert ScanU8("56", 2) == Err(PosOverflow);
    assert ScanU8(s, 0) == Err(PosOverflow);
    assert s != ['+'] && UnsignedDigits(s) == s;
  }

  /** A number above 255 is a `NotAU8` error of kind `PosOverflow`. */
  lemma ParsePercentOverflow()
    ensures ParsePercent("256") == Err(NotAU8(PosOverflow))
  {
    var s := "256";
    assert !IsWhitespace(s[0]) && !IsWhitespace(s[2]);
    PercentDigitsUnchanged(s);
    ParseU8Overflow();
  }

  /** A deserializer error: whatever made the underlying `u8` unreadable, or
      the `PercentError` of a `u8` above 100. */
  datatype DeserializeError = NotU8(reason: string) | OutOfRange(percent: PercentError)

  /** `Deserialize for Percent`: reads a `u8` (given here as the
      deserializer's result) and accepts it only if it is at most 100. */
  function DeserializePercent(input: Result<U8, string>): (r: Result<Percent, DeserializeError>)
    ensures r.Ok? <==> input.Ok? && input.value <= 100
    ensures r.Ok? ==> r.value.value == input.value
    ensures input.Ok? && input.value > 100 ==> r == Err(OutOfRange(PercentError(input.value)))
    ensures input.Err? ==> r == Err(NotU8(input.error))
  {
    match input
    case Err(reason) => Err(NotU8(reason))
    case Ok(v) =>
      match NewPercent(v)
      case Err(e) => Err(OutOfRange(e))
      case Ok(p) => Ok(p)
  }

  /** `Backlight`: three percents. */
  datatype Backlight = Backlight(red: Percent, green: Percent, blue: Percent)

  /** `BacklightError`: the `PercentError` and the name of the offending channel. */
  datatype BacklightError = BacklightError(value: PercentError, field: string)

  /** `Backlight::new`: all three channels must be at most 100; on failure the
      error names the first bad channel in the order red, green, blue. */
  function NewBacklight(red: U8, green: U8, blue: U8): (r: Result<Backlight, BacklightError>)
    ensures r.Ok? <==> red <= 100 && green <= 100 && blue <= 100
    ensures r.Ok? ==> r.value.red.value == red && r.value.green.value == green
                      && r.value.blue.value == blue
    ensures red > 100 ==> r == Err(BacklightError(PercentError(red), "red"))
    ensures red <= 100 && green > 100 ==> r == Err(BacklightError(PercentError(green), "green"))
    ensures red <= 100 && green <= 100 && blue > 100 ==>
              r == Err(BacklightError(PercentError(blue), "blue"))
  {
    match NewPercent(red)
    case Err(e) => Err(BacklightError(e, "red"))
    case Ok(r) =>
      match NewPercent(green)
      case Err(e) => Err(BacklightError(e, "green"))
      case Ok(g) =>
        match NewPercent(blue)
        case Err(e) => Err(BacklightError(e, "blue"))
        case Ok(b) => Ok(Backlight(r, g, b))
  }

  /** `Id`: an opaque dial identifier. */
  datatype Id = Id(text: string)

  /** `FromStr for Id`; its error type is `Infallible`, so it always succeeds
      and the result is given directly. */
  function ParseId(s: string): (id: Id)
    ensures FormatId(id) == s
  {
    Id(s)
  }

  /** `Display for Id`. */
  function FormatId(id: Id): string {
    id.text
  }

  /** Printing an `Id` and parsing it back gives the same `Id`. */
  lemma ParseFormatId(id: Id)
    ensures ParseId(FormatId(id)) == id
  {
  }

  /** The easing settings a dial reports (`dial::Easing`), periods in milliseconds. */
  datatype Easing = Easing(backlightStep: Percent, backlightPeriodMs: nat,
                           dialStep: Percent, dialPeriodMs: nat)

  /** `dial::Status`, limited to the fields the daemon and `dialctl` read. */
  datatype Status = Status(index: nat, uid: Id, dialName: string, value: Percent,
                           easing: Easing, backlight: Backlight)
}
