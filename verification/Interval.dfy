/** Interval strings (internal/validation/interval.go). Durations are Go's int64
    nanoseconds, so products wrap around. */
module Interval {
  import opened Common

  const NANOS_PER_SECOND := 1_000_000_000
  const MAX_INT64 := 0x7fff_ffff_ffff_ffff
  const MIN_INT64 := -0x8000_0000_0000_0000

  predicate IsInt64(x: int) {
    MIN_INT64 <= x <= MAX_INT64
  }

  function Wrap64(x: int): int {
    (x + 0x8000_0000_0000_0000) % 0x1_0000_0000_0000_0000 - 0x8000_0000_0000_0000
  }

  /** Go's integer division truncates toward zero. */
  function Quotient(a: int, b: int): int
    requires b > 0
  {
    if a >= 0 then a / b else -((-a) / b)
  }

  datatype Unit = Second | Minute | Hour | Day

  function SecondsPer(unit: Unit): (n: int)
    ensures n >= 1
  {
    match unit
    case Second => 1
    case Minute => 60
    case Hour => 60 * 60
    case Day => 24 * 60 * 60
  }

  function Letter(unit: Unit): char {
    match unit
    case Second => 's'
    case Minute => 'm'
    case Hour => 'h'
    case Day => 'd'
  }

  function UnitOf(letter: char): Option<Unit> {
    match letter
    case 's' => Some(Second)
    case 'm' => Some(Minute)
    case 'h' => Some(Hour)
    case 'd' => Some(Day)
    case _ => None
  }

  // ---------------------------------------------------------------- decimal numbers

  predicate IsDigit(c: char) {
    '0' <= c <= '9'
  }

  predicate IsDigits(s: string) {
    forall i :: 0 <= i < |s| ==> IsDigit(s[i])
  }

  function DigitsValue(s: string): nat
    requires IsDigits(s)
  {
    if s == "" then 0 else 10 * DigitsValue(s[..|s| - 1]) + (s[|s| - 1] - '0') as nat
  }

  function Decimal(n: nat): string {
    if n < 10 then [n as char + '0'] else Decimal(n / 10) + [(n % 10) as char + '0']
  }

  /** %d of a Go integer. */
  function Printed(n: int): string {
    if n < 0 then "-" + Decimal(-n) else Decimal(n)
  }

  lemma {:induction false} DecimalReadsBack(n: nat)
    ensures Decimal(n) != "" && IsDigits(Decimal(n)) && DigitsValue(Decimal(n)) == n
    ensures n > 0 ==> Decimal(n)[0] != '0'
  {
    if n >= 10 {
      DecimalReadsBack(n / 10);
      var s := Decimal(n);
      assert s[..|s| - 1] == Decimal(n / 10);
      assert s[0] == Decimal(n / 10)[0];
    } else {
      assert Decimal(n)[..0] == "";
    }
  }

  // ---------------------------------------------------------------- parse and format

  /** The pattern `^[1-9][0-9]*(s|m|h|d)$`. */
  predicate MatchesPattern(value: string) {
    && |value| >= 2 && value[0] != '0'
    && IsDigits(value[..|value| - 1]) && UnitOf(value[|value| - 1]).Some?
  }

  /** The duration a matching string denotes, in nanoseconds, before any overflow. */
  function Meaning(value: string): nat
    requires MatchesPattern(value)
  {
    DigitsValue(value[..|value| - 1]) * SecondsPer(UnitOf(value[|value| - 1]).value) * NANOS_PER_SECOND
  }

  function ParseInterval(value: string): Option<int> {
    if !MatchesPattern(value) then None
    else
      var count := DigitsValue(value[..|value| - 1]);
      if count > MAX_INT64 || count <= 0 then None
      else
        match value[|value| - 1]
        case 's' => Some(Wrap64(count * NANOS_PER_SECOND))
        case 'm' => Some(Wrap64(count * (60 * NANOS_PER_SECOND)))
        case 'h' => Some(Wrap64(count * (60 * 60 * NANOS_PER_SECOND)))
        case _ => Some(Wrap64(count * (24 * 60 * 60 * NANOS_PER_SECOND)))
  }

  function FormatInterval(seconds: int): string {
    var duration := Wrap64(seconds * NANOS_PER_SECOND);
    if seconds % (24 * 60 * 60) == 0 then Printed(Quotient(duration, 24 * 60 * 60 * NANOS_PER_SECOND)) + "d"
    else if seconds % (60 * 60) == 0 then Printed(Quotient(duration, 60 * 60 * NANOS_PER_SECOND)) + "h"
    else if seconds % 60 == 0 then Printed(Quotient(duration, 60 * NANOS_PER_SECOND)) + "m"
    else Printed(seconds) + "s"
  }

  datatype IntervalError = Malformed | TooShort | TooLong

  function ValidateInterval(value: string, min: int, max: int): Result<int, IntervalError> {
    var duration := ParseInterval(value);
    if duration.None? then Err(Malformed)
    else if duration.value < min then Err(TooShort)
    else if duration.value > max then Err(TooLong)
    else Ok(Quotient(duration.value, NANOS_PER_SECOND))
  }

  /** Seconds that a Duration can hold. */
  predicate Fits(seconds: int) {
    1 <= seconds && seconds * NANOS_PER_SECOND <= MAX_INT64
  }

  function CoarsestUnit(seconds: int): Unit {
    if seconds % SecondsPer(Day) == 0 then Day
    else if seconds % SecondsPer(Hour) == 0 then Hour
    else if seconds % SecondsPer(Minute) == 0 then Minute
    else Second
  }

  lemma WrapKeeps(x: int)
    requires IsInt64(x)
    ensures Wrap64(x) == x
  {
  }

  lemma QuotientScales(count: nat, unit: Unit)
    ensures Quotient(count * SecondsPer(unit) * NANOS_PER_SECOND, SecondsPer(unit) * NANOS_PER_SECOND) == count
  {
    match unit {
      case Second => case Minute => case Hour => case Day =>
    }
  }

  lemma FormatsAsCount(seconds: int)
    requires Fits(seconds)
    ensures var unit := CoarsestUnit(seconds);
            FormatInterval(seconds) == Decimal(seconds / SecondsPer(unit)) + [Letter(unit)]
  {
    var unit := CoarsestUnit(seconds);
    var count := seconds / SecondsPer(unit);
    assert count * SecondsPer(unit) == seconds;
    WrapKeeps(seconds * NANOS_PER_SECOND);
    QuotientScales(count, unit);
  }

  lemma ParsesCount(count: nat, unit: Unit)
    requires count > 0 && count * SecondsPer(unit) * NANOS_PER_SECOND <= MAX_INT64
    ensures ParseInterval(Decimal(count) + [Letter(unit)]) == Some(count * SecondsPer(unit) * NANOS_PER_SECOND)
  {
    var value := Decimal(count) + [Letter(unit)];
    DecimalReadsBack(count);
    assert value[..|value| - 1] == Decimal(count);
    assert value[|value| - 1] == Letter(unit);
    assert ParseInterval(value).Some?;
    ParsesMeaning(value);
    assert Meaning(value) == count * SecondsPer(unit) * NANOS_PER_SECOND;
    WrapKeeps(Meaning(value));
  }

  lemma ParseStaysInt64(value: string)
    requires ParseInterval(value).Some?
    ensures IsInt64(ParseInterval(value).value)
  {
  }

  /** Formatting and parsing are inverse exactly on the seconds from 1 that fit a Duration. */
  lemma RoundTrip(seconds: int)
    requires IsInt64(seconds)
    ensures ParseInterval(FormatInterval(seconds)) == Some(seconds * NANOS_PER_SECOND) <==> Fits(seconds)
  {
    hide Wrap64, Quotient, Decimal, DigitsValue, MatchesPattern;
    if Fits(seconds) {
      FormatsAsCount(seconds);
      var unit := CoarsestUnit(seconds);
      var count := seconds / SecondsPer(unit);
      assert count * SecondsPer(unit) == seconds;
      ParsesCount(count, unit);
    } else if ParseInterval(FormatInterval(seconds)).Some? {
      ParseStaysInt64(FormatInterval(seconds));
      if IsInt64(seconds * NANOS_PER_SECOND) {
        NonPositiveUnreadable(seconds);
      }
    }
  }

  lemma PrintedNonPositive(n: int, letter: char)
    requires n <= 0
    ensures !MatchesPattern(Printed(n) + [letter])
  {
    var value := Printed(n) + [letter];
    assert value[0] == if n < 0 then '-' else '0';
    assert value[..|value| - 1][0] == value[0];
  }

  lemma QuotientSign(a: int, b: int)
    requires a <= 0 && b > 0
    ensures Quotient(a, b) <= 0
  {
  }

  lemma NonPositiveUnreadable(seconds: int)
    requires seconds <= 0 && IsInt64(seconds * NANOS_PER_SECOND)
    ensures ParseInterval(FormatInterval(seconds)).None?
  {
    WrapKeeps(seconds * NANOS_PER_SECOND);
    var unit := CoarsestUnit(seconds);
    QuotientSign(seconds * NANOS_PER_SECOND, SecondsPer(unit) * NANOS_PER_SECOND);
    PrintedNonPositive(Quotient(seconds * NANOS_PER_SECOND, SecondsPer(unit) * NANOS_PER_SECOND), Letter(unit));
    PrintedNonPositive(seconds, 's');
  }

  lemma CoarserCountsLess(seconds: nat, coarse: Unit, fine: Unit)
    requires SecondsPer(fine) <= SecondsPer(coarse)
    ensures seconds / SecondsPer(coarse) <= seconds / SecondsPer(fine)
  {
    match coarse {
      case Day =>
        match fine {
          case Day =>
          case Hour =>
          case Minute =>
          case Second =>
        }
      case Hour =>
      case Minute =>
      case Second =>
    }
  }

  /** The unit chosen gives the smallest whole count: any other unit that divides the seconds counts at least as many. */
  lemma SmallestCount(seconds: int, unit: Unit)
    requires Fits(seconds) && seconds % SecondsPer(unit) == 0
    ensures exists count: nat :: count <= seconds / SecondsPer(unit)
              && FormatInterval(seconds) == Decimal(count) + [Letter(CoarsestUnit(seconds))]
  {
    FormatsAsCount(seconds);
    CoarserCountsLess(seconds, CoarsestUnit(seconds), unit);
    var count: nat := seconds / SecondsPer(CoarsestUnit(seconds));
    assert count <= seconds / SecondsPer(unit);
  }

  lemma ParsesMeaning(value: string)
    requires MatchesPattern(value) && ParseInterval(value).Some?
    ensures ParseInterval(value) == Some(Wrap64(Meaning(value)))
    ensures Meaning(value) > 0
  {
    var count, unit := DigitsValue(value[..|value| - 1]), UnitOf(value[|value| - 1]).value;
    match unit {
      case Second => assert Meaning(value) == count * NANOS_PER_SECOND;
      case Minute => assert Meaning(value) == count * (60 * NANOS_PER_SECOND);
      case Hour => assert Meaning(value) == count * (60 * 60 * NANOS_PER_SECOND);
      case Day => assert Meaning(value) == count * (24 * 60 * 60 * NANOS_PER_SECOND);
    }
  }

  /** An accepted string really lies within the bounds exactly when its meaning fits a
      Duration; its seconds, formatted, then validate to the same number again. */
  lemma ValidatedWithinBounds(value: string, min: int, max: int)
    requires max <= MAX_INT64
    requires ValidateInterval(value, min, max).Ok?
    ensures MatchesPattern(value)
    ensures min <= Meaning(value) <= max <==> Meaning(value) <= MAX_INT64
    ensures Meaning(value) <= MAX_INT64 ==>
              var seconds := ValidateInterval(value, min, max).value;
              && Meaning(value) == seconds * NANOS_PER_SECOND
              && ValidateInterval(FormatInterval(seconds), min, max) == Ok(seconds)
  {
    ParsesMeaning(value);
    hide Meaning, ParseInterval, FormatInterval, MatchesPattern;
    if Meaning(value) <= MAX_INT64 {
      WrapKeeps(Meaning(value));
      hide Wrap64;
      var seconds := InSeconds(value);
      RoundTrip(seconds);
    }
  }

  lemma InSeconds(value: string) returns (seconds: nat)
    requires MatchesPattern(value)
    ensures Meaning(value) == seconds * NANOS_PER_SECOND && Quotient(Meaning(value), NANOS_PER_SECOND) == seconds
  {
    seconds := DigitsValue(value[..|value| - 1]) * SecondsPer(UnitOf(value[|value| - 1]).value);
  }

  lemma CountBelowMeaning(value: string)
    requires MatchesPattern(value)
    ensures DigitsValue(value[..|value| - 1]) <= Meaning(value)
  {
    match UnitOf(value[|value| - 1]).value { case Second => case Minute => case Hour => case Day => }
  }

  lemma ParsesWhatFits(value: string)
    requires MatchesPattern(value) && Meaning(value) <= MAX_INT64
    ensures ParseInterval(value) == Some(Meaning(value))
  {
    CountIsPositive(value);
    CountBelowMeaning(value);
    assert ParseInterval(value).Some? by { hide Meaning, Wrap64; }
    hide ParseInterval, Meaning, DigitsValue;
    ParsesMeaning(value);
    WrapKeeps(Meaning(value));
  }

  /** A string whose meaning fits a Duration is accepted exactly when it matches the pattern
      and lies within the bounds, both of them included, as that many seconds; otherwise the
      error says on which side it lies. */
  lemma ValidatesExactly(value: string, min: int, max: int)
    requires MatchesPattern(value) ==> Meaning(value) <= MAX_INT64
    ensures ValidateInterval(value, min, max) ==
            if !MatchesPattern(value) then Err(Malformed)
            else if Meaning(value) < min then Err(TooShort)
            else if Meaning(value) > max then Err(TooLong)
            else Ok(Meaning(value) / NANOS_PER_SECOND)
  {
    hide Meaning, MatchesPattern;
    if MatchesPattern(value) {
      ParsesWhatFits(value);
      hide ParseInterval;
    }
  }

  /** What such a string means: that many seconds, minutes, hours or days. */
  lemma MeaningMeans(count: nat, letter: char)
    requires count > 0 && letter in {'s', 'm', 'h', 'd'}
    ensures var value := Decimal(count) + [letter];
            && MatchesPattern(value)
            && Meaning(value) == count * (if letter == 's' then 1 else if letter == 'm' then 60
                                          else if letter == 'h' then 3600 else 86400) * 1_000_000_000
  {
    DecimalReadsBack(count);
    var value := Decimal(count) + [letter];
    assert value[..|value| - 1] == Decimal(count) && value[0] == Decimal(count)[0];
  }

  lemma {:induction false} LeadingDigit(s: string)
    requires s != "" && IsDigits(s) && s[0] != '0'
    ensures DigitsValue(s) > 0
  {
    if |s| == 1 {
      assert s[..0] == "";
    } else {
      LeadingDigit(s[..|s| - 1]);
    }
  }

  lemma CountIsPositive(value: string)
    requires MatchesPattern(value)
    ensures DigitsValue(value[..|value| - 1]) > 0
  {
    LeadingDigit(value[..|value| - 1]);
  }

  /** The pattern accepts exactly a positive number in plain decimal followed by one of the letters s, m, h, d. */
  lemma PatternMeans(value: string)
    ensures MatchesPattern(value) <==>
            exists count: nat, letter :: count > 0 && letter in {'s', 'm', 'h', 'd'} && value == Decimal(count) + [letter]
  {
    if MatchesPattern(value) {
      var digits, letter := value[..|value| - 1], value[|value| - 1];
      LeadingDigit(digits);
      DigitsAreDecimal(digits);
      assert value == Decimal(DigitsValue(digits)) + [letter];
    }
    if count: nat, letter :| count > 0 && letter in {'s', 'm', 'h', 'd'} && value == Decimal(count) + [letter] {
      DecimalReadsBack(count);
      assert value[..|value| - 1] == Decimal(count) && value[0] == Decimal(count)[0];
    }
  }

  lemma {:induction false} DigitsAreDecimal(s: string)
    requires s != "" && IsDigits(s) && s[0] != '0'
    ensures Decimal(DigitsValue(s)) == s
  {
    var init, last := s[..|s| - 1], (s[|s| - 1] - '0') as nat;
    if |s| == 1 {
      assert DigitsValue(init) == 0;
    } else {
      LeadingDigit(init);
      DigitsAreDecimal(init);
      assert DigitsValue(s) / 10 == DigitsValue(init) && DigitsValue(s) % 10 == last;
      assert s == init + [s[|s| - 1]];
    }
  }

  /** The overflow is reachable: 213504 days wraps to about 25 minutes and passes a 30-day maximum. */
  lemma OverflowSlipsThrough()
    ensures ValidateInterval("213504d", 5 * NANOS_PER_SECOND, 30 * 24 * 60 * 60 * NANOS_PER_SECOND) == Ok(1526)
  {
    var value := "213504d";
    assert value[..6] == "213504";
    assert "213504"[..5] == "21350" && "21350"[..4] == "2135" && "2135"[..3] == "213" && "213"[..2] == "21" && "21"[..1] == "2" && "2"[..0] == "";
    assert DigitsValue("21") == 21;
    assert DigitsValue("2135") == 2135;
    assert DigitsValue("213504") == 213504;
  }
}
