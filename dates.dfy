/** Calendar days and the two ways the code writes them: Date#to_s (the same
    text as strftime('%Y-%m-%d')) and strftime('%Y-%m'). */
module Dates {
  import opened Text

  type Month = m: int | 1 <= m <= 12 witness 1
  type Day = d: int | 1 <= d <= 31 witness 1

  /** A calendar day; equality is equality of year, month and day. */
  datatype Date = Date(year: nat, month: Month, day: Day)

  /** "YYYY-MM-DD": the year padded to at least four digits, month and day to two. */
  function IsoDate(d: Date): (s: string)
    ensures |s| >= 10
  {
    Padded(d.year, 4) + "-" + Padded(d.month, 2) + "-" + Padded(d.day, 2)
  }

  /** "YYYY-MM": the day is not written. */
  function YearMonth(d: Date): (s: string)
    ensures |s| >= 7
  {
    Padded(d.year, 4) + "-" + Padded(d.month, 2)
  }

  /** "a-b-c" with two-character b and c can only be split one way. */
  lemma DashedDetermined(a1: string, b1: string, c1: string, a2: string, b2: string, c2: string)
    requires |b1| == 2 && |b2| == 2 && |c1| == 2 && |c2| == 2
    requires a1 + "-" + b1 + "-" + c1 == a2 + "-" + b2 + "-" + c2
    ensures a1 == a2 && b1 == b2 && c1 == c2
  {
    var s := a1 + "-" + b1 + "-" + c1;
    var t := a2 + "-" + b2 + "-" + c2;
    assert |a1| == |a2|;
    assert a1 == s[..|a1|] && a2 == t[..|a2|];
    assert b1 == s[|a1| + 1..|a1| + 3] && b2 == t[|a2| + 1..|a2| + 3];
    assert c1 == s[|a1| + 4..] && c2 == t[|a2| + 4..];
  }

  /** Date#to_s loses nothing: two days with the same text are the same day. */
  lemma IsoDateInjective(d1: Date, d2: Date)
    requires IsoDate(d1) == IsoDate(d2)
    ensures d1 == d2
  {
    DashedDetermined(Padded(d1.year, 4), Padded(d1.month, 2), Padded(d1.day, 2),
                     Padded(d2.year, 4), Padded(d2.month, 2), Padded(d2.day, 2));
    PaddedInjective(d1.year, d2.year, 4);
    PaddedInjective(d1.month, d2.month, 2);
    PaddedInjective(d1.day, d2.day, 2);
  }

  /** Two days with the same "YYYY-MM" text share their year and month. */
  lemma YearMonthInjective(d1: Date, d2: Date)
    requires YearMonth(d1) == YearMonth(d2)
    ensures d1.year == d2.year && d1.month == d2.month
  {
    var s := YearMonth(d1);
    var y1, y2 := Padded(d1.year, 4), Padded(d2.year, 4);
    assert |s| == |y1| + 3 == |y2| + 3;
    assert y1 == s[..|y1|] == y2;
    assert Padded(d1.month, 2) == s[|y1| + 1..] == Padded(d2.month, 2);
    PaddedInjective(d1.year, d2.year, 4);
    PaddedInjective(d1.month, d2.month, 2);
  }

  /** Both renderings hold only digits and dashes. */
  lemma DateTextCharacters(d: Date)
    ensures forall i :: 0 <= i < |IsoDate(d)| ==> IsDigit(IsoDate(d)[i]) || IsoDate(d)[i] == '-'
    ensures forall i :: 0 <= i < |YearMonth(d)| ==> IsDigit(YearMonth(d)[i]) || YearMonth(d)[i] == '-'
  {
  }

  /** A one-digit month or day is written with a leading zero. */
  lemma PaddedOneDigit(n: nat)
    requires n < 10
    ensures Padded(n, 2) == ['0', DigitChar(n)]
  {
    assert NatToString(n) == [DigitChar(n)];
    assert Padded(n, 2) == Zeros(1) + [DigitChar(n)];
  }

  lemma Year2020()
    ensures Padded(2020, 4) == "2020"
  {
    assert DigitChar(0) == '0' && DigitChar(2) == '2';
    assert NatToString(2) == "2";
    assert NatToString(20) == NatToString(2) + "0" == "20";
    assert NatToString(202) == NatToString(20) + "2" == "202";
    assert NatToString(2020) == NatToString(202) + "0" == "2020";
  }

  lemma Year2009()
    ensures Padded(2009, 4) == "2009"
  {
    assert DigitChar(0) == '0' && DigitChar(2) == '2' && DigitChar(9) == '9';
    assert NatToString(2) == "2";
    assert NatToString(20) == NatToString(2) + "0" == "20";
    assert NatToString(200) == NatToString(20) + "0" == "200";
    assert NatToString(2009) == NatToString(200) + "9" == "2009";
  }

  /** The days the tests use, as Date#to_s and strftime('%Y-%m') write them. */
  lemma Text20200101()
    ensures IsoDate(Date(2020, 1, 1)) == "2020-01-01"
  {
    Year2020();
    PaddedOneDigit(1);
    assert DigitChar(1) == '1';
  }

  lemma Text20090909()
    ensures IsoDate(Date(2009, 9, 9)) == "2009-09-09"
  {
    Year2009();
    PaddedOneDigit(9);
    assert DigitChar(9) == '9';
  }

  lemma Text202001()
    ensures YearMonth(Date(2020, 1, 15)) == "2020-01"
  {
    Year2020();
    PaddedOneDigit(1);
    assert DigitChar(1) == '1';
  }
}
