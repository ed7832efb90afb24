/** HistoricalBankConfigure.build_key: the cache key of one month's rate for
    one currency pair. */
module HistoricalBankConfigure {
  import opened Text
  import opened Dates

  /** "YYYY-MM:from:to"; the day of the month is not part of the key and the
      codes are written as given. */
  function BuildKey(date: Date, from: string, to: string): string {
    YearMonth(date) + ":" + from + ":" + to
  }

  /** Days of the same month share a key. */
  lemma SameMonthSameKey(d1: Date, d2: Date, from: string, to: string)
    requires d1.year == d2.year && d1.month == d2.month
    ensures BuildKey(d1, from, to) == BuildKey(d2, from, to)
  {
  }

  /** Conversely the key determines the year, the month and both codes, as
      long as the from-code holds no colon. */
  lemma BuildKeyInjective(d1: Date, from1: string, to1: string, d2: Date, from2: string, to2: string)
    requires ':' !in from1 && ':' !in from2
    requires BuildKey(d1, from1, to1) == BuildKey(d2, from2, to2)
    ensures d1.year == d2.year && d1.month == d2.month
    ensures from1 == from2 && to1 == to2
  {
    DateTextCharacters(d1);
    DateTextCharacters(d2);
    var ym1, ym2 := YearMonth(d1), YearMonth(d2);
    assert ':' !in ym1 && ':' !in ym2 by {
      assert forall i :: 0 <= i < |ym1| ==> ym1[i] != ':';
      assert forall i :: 0 <= i < |ym2| ==> ym2[i] != ':';
    }
    assert ym1 + [':'] + (from1 + ":" + to1) == BuildKey(d1, from1, to1);
    assert ym2 + [':'] + (from2 + ":" + to2) == BuildKey(d2, from2, to2);
    FirstSeparator(ym1, from1 + ":" + to1, ym2, from2 + ":" + to2, ':');
    assert from1 + [':'] + to1 == from1 + ":" + to1;
    assert from2 + [':'] + to2 == from2 + ":" + to2;
    FirstSeparator(from1, to1, from2, to2, ':');
    YearMonthInjective(d1, d2);
  }

  /** The codes are not upcased: a lower-case pair gets a key of its own. */
  lemma CodesKeptVerbatim(d: Date)
    ensures BuildKey(d, "usd", "eur") != BuildKey(d, "USD", "EUR")
  {
    if BuildKey(d, "usd", "eur") == BuildKey(d, "USD", "EUR") {
      BuildKeyInjective(d, "usd", "eur", d, "USD", "EUR");
    }
  }

  /** The key for 2020-01-15, USD to EUR. */
  lemma BuildKeyExample()
    ensures BuildKey(Date(2020, 1, 15), "USD", "EUR") == "2020-01:USD:EUR"
  {
    Text202001();
  }
}
