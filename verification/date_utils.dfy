/**
 `formatDate` of lib/dateUtils.ts: the `YYYY-MM-DD` text of a date, built by
 hand from the calendar parts of a JavaScript `Date`. Parsing the input string
 into a `Date` is the platform's job and is taken as given: a `DateReading` is
 what `new Date(dateString)` yields.
 */
module DateUtils {
  import opened Js
  import opened Decimal

  /** The outcome of `new Date(s)`: calendar parts of a valid date (month counted from 0),
      an Invalid Date, or an exception. */
  datatype DateReading =
    | Calendar(year: int, monthIndex: int, day: int)
    | InvalidDate
    | Throws

  /** The parts a valid JavaScript `Date` can report. */
  predicate ValidParts(year: int, monthIndex: int, day: int)
  {
    0 <= monthIndex < 12 && 1 <= day <= 31
  }

  const UnknownDate := "未知日期"
  /** Every getter of an Invalid Date returns NaN, and `String(NaN)` is "NaN"; padding leaves
      three characters alone. */
  const InvalidDateText := "NaN-NaN-NaN"

  /** `s.padStart(width, c)`: `c` repeated in front of `s` until it is `width` long. */
  function PadStart(s: string, width: nat, c: char): (r: string)
    ensures |r| == if |s| >= width then |s| else width
    ensures r[|r| - |s|..] == s
    ensures forall i :: 0 <= i < |r| - |s| ==> r[i] == c
  {
    if |s| >= width then s else seq(width - |s|, _ => c) + s
  }

  /** `String(n).padStart(2, '0')`. */
  function TwoDigits(n: int): string
  {
    PadStart(IntToString(n), 2, '0')
  }

  /** The text starts with the year and a dash; an Invalid Date gives the NaN text, and a throw
      the fallback. */
  function FormatDate(reading: DateReading): (r: string)
    ensures reading.Calendar? ==>
      |r| > |IntToString(reading.year)| && r[..|IntToString(reading.year)|] == IntToString(reading.year)
      && r[|IntToString(reading.year)|] == '-'
    ensures reading.InvalidDate? ==> r == InvalidDateText
    ensures reading.Throws? ==> r == UnknownDate
  {
    match reading
    case Calendar(year, monthIndex, day) =>
      IntToString(year) + "-" + TwoDigits(monthIndex + 1) + "-" + TwoDigits(day)
    case InvalidDate => InvalidDateText
    case Throws => UnknownDate
  }

  /** Reads `YYYY-MM-DD` text back into (year, month counted from 0, day); the month and
      day fields are exactly two characters. */
  function ParseFormatted(s: string): (r: Option<(int, int, int)>)
  {
    if |s| < 7 || s[|s| - 3] != '-' || s[|s| - 6] != '-' then None
    else
      var y := ParseInt(s[..|s| - 6]);
      var m := ParseInt(s[|s| - 5..|s| - 3]);
      var d := ParseInt(s[|s| - 2..]);
      if y.Some? && m.Some? && d.Some? then Some((y.value, m.value - 1, d.value)) else None
  }

  /** A number from 1 to 31 takes exactly two characters once padded, and reads back as itself. */
  lemma TwoDigitsOfSmall(n: int)
    requires 1 <= n <= 31
    ensures |TwoDigits(n)| == 2
    ensures ParseInt(TwoDigits(n)) == Some(n)
  {
    if n < 10 {
      var c := DigitChar(n);
      assert IntToString(n) == [c];
      assert TwoDigits(n) == PadStart(['0', c], 2, '0');
      var r := ['0', c];
      assert AllDigits(r);
      assert r[..1] == ['0'];
      assert DigitsValue(r[..1]) == 0 by {
        assert r[..1][..0] == [];
      }
      assert ParseInt(r) == Some(DigitsValue(r));
    } else {
      var s := IntToString(n);
      assert s == NatToString(n / 10) + [DigitChar(n % 10)];
      assert NatToString(n / 10) == [DigitChar(n / 10)];
      assert |s| == 2;
      IntToStringRoundTrip(n);
    }
  }

  /** Padding leaves a value that already has two characters as it is. */
  lemma TwoDigitValuesUnpadded(n: int)
    requires 10 <= n <= 99
    ensures TwoDigits(n) == IntToString(n)
  {
    assert IntToString(n) == NatToString(n / 10) + [DigitChar(n % 10)];
  }

  /** Where the three fields of `YYYY-MM-DD` text sit when month and day have two characters. */
  lemma JoinedFields(ys: string, ms: string, ds: string)
    requires |ms| == 2 && |ds| == 2
    ensures var s := ys + "-" + ms + "-" + ds;
      && |s| == |ys| + 6
      && s[|s| - 3] == '-' && s[|s| - 6] == '-'
      && s[..|s| - 6] == ys && s[|s| - 5..|s| - 3] == ms && s[|s| - 2..] == ds
  {
    var s := ys + "-" + ms + "-" + ds;
    assert s[..|ys|] == ys;
    assert s[|ys| + 1..|ys| + 3] == ms;
    assert s[|ys| + 4..] == ds;
  }

  /** Text joined from three readable fields, the last two of two characters, reads back
      field by field. */
  lemma ParseJoined(ys: string, ms: string, ds: string, y: int, m: int, d: int)
    requires |ms| == 2 && |ds| == 2
    requires ParseInt(ys) == Some(y) && ParseInt(ms) == Some(m) && ParseInt(ds) == Some(d)
    ensures ParseFormatted(ys + "-" + ms + "-" + ds) == Some((y, m - 1, d))
  {
    JoinedFields(ys, ms, ds);
  }

  /** The year, the month counted from 1 and the day appear in that order, separated by
      dashes: the formatted text of a valid date reads back as the date it came from. */
  lemma FormatDateRoundTrip(year: int, monthIndex: int, day: int)
    requires ValidParts(year, monthIndex, day)
    ensures ParseFormatted(FormatDate(Calendar(year, monthIndex, day))) == Some((year, monthIndex, day))
  {
    var ys, ms, ds := IntToString(year), TwoDigits(monthIndex + 1), TwoDigits(day);
    assert FormatDate(Calendar(year, monthIndex, day)) == ys + "-" + ms + "-" + ds;
    assert |ms| == 2 && ParseInt(ms) == Some(monthIndex + 1) by {
      TwoDigitsOfSmall(monthIndex + 1);
    }
    assert |ds| == 2 && ParseInt(ds) == Some(day) by {
      TwoDigitsOfSmall(day);
    }
    assert ParseInt(ys) == Some(year) by {
      IntToStringRoundTrip(year);
    }
    ParseJoined(ys, ms, ds, year, monthIndex + 1, day);
  }

  /** Neither fallback text reads as a date. */
  lemma FallbacksUnreadable()
    ensures ParseFormatted(InvalidDateText) == None
    ensures ParseFormatted(UnknownDate) == None
  {
    assert InvalidDateText[8] == 'N';
    assert |UnknownDate| == 4;
  }

  /** The three outcomes never produce the same text: a valid date is never shown as the
      Invalid-Date text or as the fallback. */
  lemma FormatDateOutcomesDistinct(year: int, monthIndex: int, day: int)
    requires ValidParts(year, monthIndex, day)
    ensures FormatDate(Calendar(year, monthIndex, day)) != FormatDate(InvalidDate)
    ensures FormatDate(Calendar(year, monthIndex, day)) != FormatDate(Throws)
    ensures FormatDate(InvalidDate) != FormatDate(Throws)
  {
    var s := FormatDate(Calendar(year, monthIndex, day));
    assert ParseFormatted(s).Some? by {
      FormatDateRoundTrip(year, monthIndex, day);
    }
    FallbacksUnreadable();
  }
}
