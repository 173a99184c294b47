/**
  `parseUntisDate` (src/utils.ts): the timetable service encodes a day as the
  integer yyyymmdd; the decoder reads the decimal rendering back in three
  slices. The result is the triple handed to `new Date(year, month, day)`,
  or None where one slice does not parse (the Invalid Date).
*/
module Utils {
  import opened Base
  import opened Text
  import opened Types

  /** `s.slice(start, end)` for non-negative indices: both are clamped to the length. */
  function Slice(s: string, start: nat, end: nat): (r: string)
    ensures |r| <= |s|
    ensures end <= |s| && start <= end ==> r == s[start..end]
    ensures |s| <= start ==> r == []
    ensures start < |s| < end ==> r == s[start..]
    ensures end <= start ==> r == []
  {
    var i := if start < |s| then start else |s|;
    var j := if end < |s| then end else |s|;
    if i < j then s[i..j] else []
  }

  function ParseUntisDate(untisDate: int): Option<Date>
  {
    DateOfText(IntToString(untisDate))
  }

  /** The three slices of the decimal text: characters 0-3, 4-5 and 6-7. */
  function DateOfText(str: string): Option<Date>
  {
    DateOfFields(ParseInt(Slice(str, 0, 4)), ParseInt(Slice(str, 4, 6)), ParseInt(Slice(str, 6, 8)))
  }

  /** `new Date(year, month - 1, day)` on the parsed fields; any NaN makes the Invalid Date. */
  function DateOfFields(year: Option<int>, month: Option<int>, day: Option<int>): Option<Date>
  {
    if year.None? || month.None? || day.None? then None
    else Some(Date(year.value, month.value - 1, day.value))
  }

  // ---------------------------------------------------------------- arithmetic

  lemma DivModUnique(n: int, q: int, r: int, d: int)
    requires d > 0 && 0 <= r < d && n == q * d + r
    ensures q == n / d && r == n % d
  {
    var q', r' := n / d, n % d;
    var e := q - q';
    assert e * d == r' - r by {
      assert q * d - q' * d == (q - q') * d;
    }
    if e >= 1 {
      MulAtLeast(e, d);
    } else if e <= -1 {
      MulAtLeast(-e, d);
    }
  }

  lemma MulAtLeast(a: int, d: int)
    requires a >= 1 && d > 0
    ensures a * d >= d
  {
    var b := a - 1;
    assert a * d == b * d + d;
  }

  /** A number in [10^k, 10^(k+1)) has k + 1 digits. */
  lemma {:induction false} NatToStringLength(n: nat, k: nat)
    requires Pow10(k) <= n < Pow10(k + 1)
    ensures |NatToString(n)| == k + 1
  {
    if k > 0 {
      assert Pow10(k + 1) == 10 * Pow10(k) && Pow10(k) == 10 * Pow10(k - 1);
      NatToStringLength(n / 10, k - 1);
    } else {
      assert Pow10(1) == 10;
    }
  }

  /** A number of at least 10^k has more than k digits. */
  lemma {:induction false} NatToStringLonger(n: nat, k: nat)
    requires Pow10(k) <= n
    ensures |NatToString(n)| >= k + 1
  {
    if k > 0 {
      assert Pow10(k) == 10 * Pow10(k - 1);
      NatToStringLonger(n / 10, k - 1);
    }
  }

  /** The digits of `s` before and after position `i`, as a quotient and remainder. */
  lemma SplitDigits(s: string, i: nat)
    requires AllDigits(s) && i <= |s|
    ensures AllDigits(s[..i]) && AllDigits(s[i..])
    ensures DigitsValue(s[..i]) == DigitsValue(s) / Pow10(|s| - i)
    ensures DigitsValue(s[i..]) == DigitsValue(s) % Pow10(|s| - i)
  {
    assert s == s[..i] + s[i..];
    DigitsValueAppend(s[..i], s[i..]);
    DivModUnique(DigitsValue(s), DigitsValue(s[..i]), DigitsValue(s[i..]), Pow10(|s| - i));
  }

  // ---------------------------------------------------------------- properties

  /** An eight-digit yyyymmdd number decodes to its three fields, the month made zero-based. */
  lemma ParseUntisDateEightDigits(untisDate: int)
    requires 10000000 <= untisDate < 100000000
    ensures ParseUntisDate(untisDate)
         == Some(Date(untisDate / 10000, (untisDate / 100) % 100 - 1, untisDate % 100))
  {
    EightDigitFields(untisDate);
    FieldsDecode(IntToString(untisDate), untisDate / 10000, (untisDate / 100) % 100, untisDate % 100);
  }

  /** The three slices of an eight-digit rendering parse to the yyyy, mm and dd parts of the number. */
  lemma EightDigitFields(n: int)
    requires 10000000 <= n < 100000000
    ensures ParseInt(Slice(IntToString(n), 0, 4)) == Some(n / 10000)
    ensures ParseInt(Slice(IntToString(n), 4, 6)) == Some((n / 100) % 100)
    ensures ParseInt(Slice(IntToString(n), 6, 8)) == Some(n % 100)
  {
    EightDigitText(n);
    YearField(IntToString(n), n);
    MonthField(IntToString(n), n);
    DayField(IntToString(n), n);
  }

  /** Three slices that parse decode to the date of their values. */
  lemma FieldsDecode(str: string, year: int, month: int, day: int)
    requires ParseInt(Slice(str, 0, 4)) == Some(year)
    requires ParseInt(Slice(str, 4, 6)) == Some(month)
    requires ParseInt(Slice(str, 6, 8)) == Some(day)
    ensures DateOfText(str) == Some(Date(year, month - 1, day))
  {
    assert DateOfText(str) == DateOfFields(Some(year), Some(month), Some(day));
  }

  /** The rendering of an eight-digit number: eight digits worth the number. */
  lemma EightDigitText(untisDate: int)
    requires 10000000 <= untisDate < 100000000
    ensures var str := IntToString(untisDate);
      |str| == 8 && AllDigits(str) && DigitsValue(str) == untisDate
  {
    assert IntToString(untisDate) == NatToString(untisDate);
    assert Pow10(7) == 10000000 && Pow10(8) == 100000000;
    NatToStringLength(untisDate, 7);
    DigitsValueOfNatToString(untisDate);
  }

  /** The digits of `str` in [i, j), as `parseInt` reads them. */
  lemma FieldOfDigits(str: string, i: nat, j: nat)
    requires AllDigits(str) && i < j <= |str|
    ensures ParseInt(Slice(str, i, j)) == Some(DigitsValue(str) / Pow10(|str| - j) % Pow10(j - i))
  {
    var upTo := str[..j];
    SplitDigits(str, j);
    SplitDigits(upTo, i);
    assert Slice(str, i, j) == upTo[i..];
    ParseIntOfDigits(upTo[i..]);
  }

  lemma Pow10Values()
    ensures Pow10(0) == 1 && Pow10(2) == 100 && Pow10(4) == 10000
  {
    assert Pow10(1) == 10 && Pow10(3) == 1000;
  }

  lemma YearArith(v: int, n: int)
    requires v == n && 0 <= n < 100000000
    ensures v / 10000 % 10000 == n / 10000
  {
  }

  lemma MonthArith(v: int, n: int)
    requires v == n
    ensures v / 100 % 100 == (n / 100) % 100
  {
  }

  lemma DayArith(v: int, n: int)
    requires v == n
    ensures v / 1 % 100 == n % 100
  {
  }

  lemma YearField(str: string, n: int)
    requires |str| == 8 && AllDigits(str) && DigitsValue(str) == n
    ensures ParseInt(Slice(str, 0, 4)) == Some(n / 10000)
  {
    FieldOfDigits(str, 0, 4);
    Pow10Values();
    assert DigitsValue(str) < Pow10(8) == 100000000 by {
      assert Pow10(8) == 10000 * Pow10(4) by {
        assert Pow10(8) == 10 * Pow10(7) && Pow10(7) == 10 * Pow10(6);
        assert Pow10(6) == 10 * Pow10(5) && Pow10(5) == 10 * Pow10(4);
      }
    }
    YearArith(DigitsValue(str), n);
  }

  lemma MonthField(str: string, n: int)
    requires |str| == 8 && AllDigits(str) && DigitsValue(str) == n
    ensures ParseInt(Slice(str, 4, 6)) == Some((n / 100) % 100)
  {
    FieldOfDigits(str, 4, 6);
    Pow10Values();
    MonthArith(DigitsValue(str), n);
  }

  lemma DayField(str: string, n: int)
    requires |str| == 8 && AllDigits(str) && DigitsValue(str) == n
    ensures ParseInt(Slice(str, 6, 8)) == Some(n % 100)
  {
    FieldOfDigits(str, 6, 8);
    Pow10Values();
    DayArith(DigitsValue(str), n);
  }

  /** Encoding year, month (1-12) and day as yyyymmdd and decoding gives the zero-based month back. */
  lemma ParseUntisDateRoundTrip(year: int, month: int, day: int)
    requires 1000 <= year <= 9999 && 1 <= month <= 12 && 1 <= day <= 31
    ensures ParseUntisDate(year * 10000 + month * 100 + day) == Some(Date(year, month - 1, day))
  {
    var n := year * 10000 + month * 100 + day;
    DivModUnique(n, year, month * 100 + day, 10000);
    DivModUnique(n, year * 100 + month, day, 100);
    DivModUnique(year * 100 + month, year, month, 100);
    EncodedFields(n, year, month, day);
  }

  lemma EncodedFields(n: int, year: int, month: int, day: int)
    requires 10000000 <= n < 100000000
    requires n / 10000 == year && (n / 100) % 100 == month && n % 100 == day
    ensures ParseUntisDate(n) == Some(Date(year, month - 1, day))
  {
    ParseUntisDateEightDigits(n);
    assert ParseUntisDate(n) == Some(Date(n / 10000, (n / 100) % 100 - 1, n % 100));
    assert Date(n / 10000, (n / 100) % 100 - 1, n % 100) == Date(year, month - 1, day);
  }

  /** Non-negative numbers of fewer than seven digits leave the day slice empty: an Invalid Date. */
  lemma ParseUntisDateShort(untisDate: int)
    requires 0 <= untisDate < 1000000
    ensures ParseUntisDate(untisDate) == None
  {
    assert Pow10(6) == 1000000;
    NatToStringAtMost(untisDate, 5);
  }

  /** A number below 10^(k+1) has at most k + 1 digits. */
  lemma {:induction false} NatToStringAtMost(n: nat, k: nat)
    requires n < Pow10(k + 1)
    ensures |NatToString(n)| <= k + 1
  {
    if n >= 10 {
      assert k > 0;
      assert Pow10(k + 1) == 10 * Pow10(k);
      NatToStringAtMost(n / 10, k - 1);
    }
  }

  /** Only the first eight characters are read. */
  lemma DateOfTextPrefix(s: string, t: string)
    requires |s| >= 8
    ensures DateOfText(s + t) == DateOfText(s)
  {
    var u := s + t;
    assert Slice(u, 0, 4) == Slice(s, 0, 4) by { assert u[0..4] == s[0..4]; }
    assert Slice(u, 4, 6) == Slice(s, 4, 6) by { assert u[4..6] == s[4..6]; }
    assert Slice(u, 6, 8) == Slice(s, 6, 8) by { assert u[6..8] == s[6..8]; }
  }

  /** Digits after the eighth are ignored: dropping the last one changes nothing. */
  lemma ParseUntisDateExtraDigits(untisDate: int)
    requires untisDate >= 100000000
    ensures ParseUntisDate(untisDate) == ParseUntisDate(untisDate / 10)
  {
    var s := NatToString(untisDate / 10);
    assert NatToString(untisDate) == s + [DigitChar(untisDate % 10)];
    assert Pow10(7) == 10000000;
    NatToStringLonger(untisDate / 10, 7);
    DateOfTextPrefix(s, [DigitChar(untisDate % 10)]);
  }
}
