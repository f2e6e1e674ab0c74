/**
 * Zero padding and UTC date formatting.
 *
 * `NumberFormatter.pad` (js/utils.mjs) prepends zeros in a loop whose bound
 * re-reads the growing result, so it stops half way; the `DateFormatter` of
 * js/utils.mjs builds on it. The later `DateFormatter` of
 * js/utils/DateFormatter.mjs uses `String.prototype.padStart` instead. A
 * date is given by its UTC components; `month` is 0-based, as
 * `getUTCMonth()` returns it.
 */
module Formatting {
  import opened JsValues

  /** `n` zero characters. */
  function Zeros(n: nat): (r: string)
    ensures |r| == n && forall i :: 0 <= i < n ==> r[i] == '0'
  {
    if n == 0 then "" else "0" + Zeros(n - 1)
  }

  // ---------------------------------------------------------------------
  // String.prototype.padStart(n, "0")

  /** `s.padStart(n, "0")`: zeros in front up to length `n`; a longer `s` is kept whole. */
  function PadStart(s: string, n: int): (r: string)
    ensures |r| == if n <= |s| then |s| else n
    ensures r == Zeros(|r| - |s|) + s
  {
    if n <= |s| then s else Zeros(n - |s|) + s
  }

  // ---------------------------------------------------------------------
  // NumberFormatter.pad, as written

  /**
   * How many zeros the loop prepends: it stops once `i` reaches
   * `length - result.length`, and both sides move by one per round, so it
   * adds ceil((length - |s|) / 2) zeros.
   */
  function ZerosAdded(len: nat, length: int): nat {
    if length <= len then 0 else (length - len + 1) / 2
  }

  /** The result of the loop for `value.toString() == s`. */
  function PadText(s: string, length: int): string {
    Zeros(ZerosAdded(|s|, length)) + s
  }

  /** `pad(value, length)`: throws for anything that is not an integer. */
  function Pad(value: Json, length: int): (r: Result<string>)
    ensures r.Err? <==> !value.JNum?
  {
    if !value.JNum? then Err(Error("Value must be an integer."))
    else Ok(PadText(Decimal(value.n), length))
  }

  /** `pad`: the integer check, then the padding loop over the digits. */
  method PadValue(value: Json, length: int) returns (r: Result<string>)
    ensures r == Pad(value, length)
  {
    if !value.JNum? {
      return Err(Error("Value must be an integer."));
    }
    var padded := PadDigits(Decimal(value.n), length);
    return Ok(padded);
  }

  /** The padding loop of `pad`, proved against `PadText`. */
  method PadDigits(s: string, length: int) returns (result: string)
    ensures result == PadText(s, length)
  {
    result := s;
    var i := 0;
    while i < length - |result|
      invariant 0 <= i <= ZerosAdded(|s|, length)
      invariant result == Zeros(i) + s
    {
      PadLoopBound(|s|, length, i);
      ZerosCons(i, s);
      result := "0" + result;
      i := i + 1;
    }
    PadLoopBound(|s|, length, i);
  }

  /** The loop goes round again exactly while fewer than ZerosAdded zeros are in. */
  lemma PadLoopBound(len: nat, length: int, i: nat)
    ensures i < ZerosAdded(len, length) <==> i < length - (len + i)
  {
  }

  lemma ZerosCons(i: nat, s: string)
    ensures "0" + (Zeros(i) + s) == Zeros(i + 1) + s
  {
    assert Zeros(i + 1) == "0" + Zeros(i);
  }

  /** `pad` only prepends zeros: the digits are kept whole at the end and nothing is cut. */
  lemma PadKeepsDigits(s: string, length: int)
    ensures var r := PadText(s, length);
      |r| >= |s| && r[|r| - |s|..] == s && forall i :: 0 <= i < |r| - |s| ==> r[i] == '0'
  {
  }

  /** `pad` reaches the requested length exactly when at most one zero was missing. */
  lemma PadReachesLengthIff(s: string, length: int)
    ensures |PadText(s, length)| == (if length <= |s| then |s| else |s| + (length - |s| + 1) / 2)
    ensures PadText(s, length) == PadStart(s, length) <==> length - |s| <= 1
  {
    if length - |s| > 1 {
      assert |PadText(s, length)| < |PadStart(s, length)|;
    }
  }

  /** pad(5, 4) is "005": one zero short. */
  lemma PadFiveToFour()
    ensures Pad(JNum(5), 4) == Ok("005")
    ensures PadStart(Decimal(5), 4) == "0005"
  {
    assert DigitChar(5) == '5';
    assert Decimal(5) == "5";
    assert ZerosAdded(1, 4) == 2;
    assert Zeros(2) == "00" && Zeros(2) + "5" == "005";
    assert Zeros(3) == "000" && Zeros(3) + "5" == "0005";
  }

  // ---------------------------------------------------------------------
  // Dates

  /** The UTC components of a `Date` the formatters read; `month` is 0-based. */
  datatype UtcDate = UtcDate(year: int, month: int, day: int, hours: int, minutes: int)

  /** Component ranges of a date with a four-digit, non-negative year. */
  predicate InRange(d: UtcDate) {
    && 0 <= d.year <= 9999 && 0 <= d.month <= 11 && 1 <= d.day <= 31
    && 0 <= d.hours <= 23 && 0 <= d.minutes <= 59
  }

  /** `DateFormatter.shortDate` of js/utils/DateFormatter.mjs: `YYYY-MM-DD`. */
  function ShortDate(d: UtcDate): string {
    PadStart(Decimal(d.year), 4) + "-" + PadStart(Decimal(d.month + 1), 2) + "-" + PadStart(Decimal(d.day), 2)
  }

  /** `DateFormatter.longDate` of js/utils/DateFormatter.mjs: `YYYY-MM-DD HH:MM UTC`. */
  function LongDate(d: UtcDate): string {
    ShortDate(d) + " " + PadStart(Decimal(d.hours), 2) + ":" + PadStart(Decimal(d.minutes), 2) + " UTC"
  }

  /** `DateFormatter.shortDate` of js/utils.mjs, built on `pad`. */
  function ShortDateAsWritten(d: UtcDate): string {
    PadText(Decimal(d.year), 4) + "-" + PadText(Decimal(d.month + 1), 2) + "-" + PadText(Decimal(d.day), 2)
  }

  /** `DateFormatter.longDate` of js/utils.mjs, built on `pad`. */
  function LongDateAsWritten(d: UtcDate): string {
    ShortDateAsWritten(d) + " " + PadText(Decimal(d.hours), 2) + ":" + PadText(Decimal(d.minutes), 2) + " UTC"
  }

  /** Leading zeros do not change the value of a digit string. */
  lemma {:induction false} DigitsValueZeros(z: nat, s: string)
    requires AllDigits(s)
    ensures AllDigits(Zeros(z) + s)
    ensures DigitsValue(Zeros(z) + s) == DigitsValue(s)
    decreases |s|
  {
    var t := Zeros(z) + s;
    if s == [] {
      DigitsValueAllZeros(z);
      assert t == Zeros(z);
    } else {
      assert t[..|t| - 1] == Zeros(z) + s[..|s| - 1];
      DigitsValueZeros(z, s[..|s| - 1]);
    }
  }

  lemma {:induction false} DigitsValueAllZeros(z: nat)
    ensures DigitsValue(Zeros(z)) == 0
  {
    if z > 0 {
      assert Zeros(z)[..z - 1] == Zeros(z - 1) by {
        ZerosSnoc(z - 1);
      }
      DigitsValueAllZeros(z - 1);
    }
  }

  lemma {:induction false} ZerosSnoc(z: nat)
    ensures Zeros(z + 1) == Zeros(z) + "0"
  {
    if z > 0 {
      ZerosSnoc(z - 1);
    }
  }

  function Power10(n: nat): (r: nat)
    ensures r >= 1
  {
    if n == 0 then 1 else 10 * Power10(n - 1)
  }

  /** A number below 10^n (n >= 1) has at most n decimal digits. */
  lemma {:induction false} DecimalAtMost(v: nat, n: nat)
    requires n >= 1 && v < Power10(n)
    ensures |NatToDecimal(v)| <= n
  {
    if v >= 10 {
      assert Power10(1) == 10;
      DecimalAtMost(v / 10, n - 1);
    }
  }

  /** A number of at least 10^n has more than n decimal digits. */
  lemma {:induction false} DecimalMoreThan(v: nat, n: nat)
    requires v >= Power10(n)
    ensures |NatToDecimal(v)| > n
  {
    if n > 0 {
      DecimalMoreThan(v / 10, n - 1);
    }
  }

  /** A number below 10^n, padded to `n` places, is exactly `n` digits that read back as the number. */
  lemma PaddedField(v: nat, n: nat)
    requires n >= 1 && v < Power10(n)
    ensures var r := PadStart(Decimal(v), n);
      |r| == n && AllDigits(r) && DigitsValue(r) == v
  {
    var s := NatToDecimal(v);
    assert Decimal(v) == s;
    DecimalAtMost(v, n);
    var r := PadStart(s, n);
    assert |r| == n;
    DigitsValueZeros(n - |s|, s);
  }

  /** Where the parts of `y-m-d` sit. */
  lemma DateLayout(y: string, m: string, d: string)
    ensures var r := y + "-" + m + "-" + d;
      && |r| == |y| + |m| + |d| + 2
      && r[..|y|] == y && r[|y|] == '-'
      && r[|y| + 1..|y| + 1 + |m|] == m && r[|y| + 1 + |m|] == '-'
      && r[|y| + |m| + 2..] == d
  {
    var r := y + "-" + m + "-" + d;
    assert r == y + (['-'] + m + (['-'] + d));
  }

  /** `r` is `YYYY-MM-DD`: digit fields of widths 4, 2 and 2 joined by `-`, reading back as the three values. */
  predicate DateShaped(r: string, yv: nat, mv: nat, dv: nat) {
    && |r| == 10 && r[4] == '-' && r[7] == '-'
    && AllDigits(r[..4]) && DigitsValue(r[..4]) == yv
    && AllDigits(r[5..7]) && DigitsValue(r[5..7]) == mv
    && AllDigits(r[8..]) && DigitsValue(r[8..]) == dv
  }

  /** `r` is the ten characters `date`, a space, `HH:MM` reading back as the two values, and " UTC". */
  predicate TimeShaped(r: string, date: string, hv: nat, mv: nat) {
    && |r| == 20 && r[..10] == date && r[10] == ' ' && r[13] == ':' && r[16..] == " UTC"
    && AllDigits(r[11..13]) && DigitsValue(r[11..13]) == hv
    && AllDigits(r[14..16]) && DigitsValue(r[14..16]) == mv
  }

  /** Digit fields of widths 4, 2 and 2 joined by `-`. */
  lemma DateFields(y: string, m: string, d: string, yv: nat, mv: nat, dv: nat)
    requires |y| == 4 && AllDigits(y) && DigitsValue(y) == yv
    requires |m| == 2 && AllDigits(m) && DigitsValue(m) == mv
    requires |d| == 2 && AllDigits(d) && DigitsValue(d) == dv
    ensures DateShaped(y + "-" + m + "-" + d, yv, mv, dv)
  {
    DateLayout(y, m, d);
  }

  /** Where the parts of `s h:m UTC` sit. */
  lemma TimeFields(s: string, h: string, m: string, hv: nat, mv: nat)
    requires |s| == 10
    requires |h| == 2 && AllDigits(h) && DigitsValue(h) == hv
    requires |m| == 2 && AllDigits(m) && DigitsValue(m) == mv
    ensures TimeShaped(s + " " + h + ":" + m + " UTC", s, hv, mv)
  {
    var r := s + " " + h + ":" + m + " UTC";
    assert r == s + ([' '] + h + ([':'] + m + " UTC"));
    assert r[11..13] == h && r[14..16] == m;
  }

  /** 10^2 and 10^4. */
  lemma Powers()
    ensures Power10(2) == 100 && Power10(4) == 10000
  {
    assert Power10(1) == 10 && Power10(3) == 1000;
  }

  /**
   * In range, `shortDate` is ten characters: four year digits, `-`, two
   * month digits ("01" to "12"), `-`, two day digits, each reading back as
   * the component.
   */
  lemma ShortDateShape(d: UtcDate)
    requires InRange(d)
    ensures DateShaped(ShortDate(d), d.year, d.month + 1, d.day)
  {
    Powers();
    PaddedTwo(d.month + 1);
    PaddedTwo(d.day);
    PaddedField(d.year, 4);
    DateFields(PadStart(Decimal(d.year), 4), PadStart(Decimal(d.month + 1), 2), PadStart(Decimal(d.day), 2),
      d.year, d.month + 1, d.day);
  }

  /** In range, `longDate` is `shortDate`, a space, `HH:MM` and " UTC": twenty characters. */
  lemma LongDateShape(d: UtcDate)
    requires InRange(d)
    ensures TimeShaped(LongDate(d), ShortDate(d), d.hours, d.minutes)
  {
    ShortDateShape(d);
    PaddedTwo(d.hours);
    PaddedTwo(d.minutes);
    TimeFields(ShortDate(d), PadStart(Decimal(d.hours), 2), PadStart(Decimal(d.minutes), 2), d.hours, d.minutes);
  }

  /** A value below 100 padded to two places. */
  lemma PaddedTwo(v: nat)
    requires v < 100
    ensures var r := PadStart(Decimal(v), 2); |r| == 2 && AllDigits(r) && DigitsValue(r) == v
  {
    Powers();
    PaddedField(v, 2);
  }

  /** padStart never truncates: a year of five or more digits is printed whole. */
  lemma LongYearKept(d: UtcDate)
    requires 10000 <= d.year
    ensures ShortDate(d)[..|Decimal(d.year)|] == Decimal(d.year)
    ensures |ShortDate(d)| > 10
  {
    Powers();
    DecimalMoreThan(d.year, 4);
    DateLayout(Decimal(d.year), PadStart(Decimal(d.month + 1), 2), PadStart(Decimal(d.day), 2));
  }

  /** For years from 100 to 9999, and months and days below 100, the `pad`-based formatter agrees with the padStart one. */
  lemma ShortDateAsWrittenAgrees(d: UtcDate)
    requires InRange(d) && 100 <= d.year
    ensures ShortDateAsWritten(d) == ShortDate(d)
  {
    YearPad(d.year);
    TwoDigitPad(d.month + 1);
    TwoDigitPad(d.day);
  }

  /** The same holds for `longDate`: hours and minutes are below 100. */
  lemma LongDateAsWrittenAgrees(d: UtcDate)
    requires InRange(d) && 100 <= d.year
    ensures LongDateAsWritten(d) == LongDate(d)
  {
    ShortDateAsWrittenAgrees(d);
    TwoDigitPad(d.hours);
    TwoDigitPad(d.minutes);
  }

  /** A year of three or four digits: at most one zero is missing, so `pad` pads fully. */
  lemma YearPad(y: nat)
    requires 100 <= y <= 9999
    ensures PadText(Decimal(y), 4) == PadStart(Decimal(y), 4)
  {
    Powers();
    DecimalMoreThan(y, 2);
    DecimalAtMost(y, 4);
    PadReachesLengthIff(Decimal(y), 4);
  }

  /** A field below 100: at most one zero is missing, so `pad` pads fully to two digits. */
  lemma TwoDigitPad(v: nat)
    requires v < 100
    ensures PadText(Decimal(v), 2) == PadStart(Decimal(v), 2)
    ensures |PadText(Decimal(v), 2)| == 2
  {
    Powers();
    DecimalAtMost(v, 2);
    PadReachesLengthIff(Decimal(v), 2);
  }

  /** A year below 100 gets one zero too few: three characters instead of four. */
  lemma ShortYearPad(y: nat)
    requires y < 100
    ensures PadText(Decimal(y), 4) == PadStart(Decimal(y), 3)
  {
    Powers();
    DecimalAtMost(y, 2);
  }

  /**
   * For years below 100 the `pad`-based `shortDate` is one zero short:
   * year 5 gives "005-…", nine characters instead of ten.
   */
  lemma ShortDateAsWrittenShort(d: UtcDate)
    requires InRange(d) && d.year < 100
    ensures |ShortDateAsWritten(d)| == 9
    ensures ShortDateAsWritten(d)[..3] == PadStart(Decimal(d.year), 3)
  {
    ShortYearPad(d.year);
    TwoDigitPad(d.month + 1);
    TwoDigitPad(d.day);
    DateLayout(PadText(Decimal(d.year), 4), PadText(Decimal(d.month + 1), 2), PadText(Decimal(d.day), 2));
  }
}
