/** The data side of OpenExchangeRatesLoader#load_data: which URL it asks for
    and how it reads the parsed document. The write loop belongs to the bank
    (the loader is mixed into it) and is HistoricalBank.Bank.LoadData. */
module OpenExchangeRatesLoader {
  import opened Wrappers
  import opened Text
  import opened Dates
  import Fetcher = OpenExchangeRatesFetcher

  const HIST_URL := "https://openexchangerates.org/api/historical/"
  const OER_URL := "https://openexchangerates.org/api/latest.json"

  /** Both constants are BASE_API_URL with a path after it. */
  lemma UrlConstants()
    ensures HIST_URL == Fetcher.BASE_API_URL + "/historical/"
    ensures OER_URL == Fetcher.BASE_API_URL + "/latest.json"
  {
  }

  /** A parsed rates document: its optional "base" and its optional "rates"
      object, as currency/rate pairs in document order. */
  datatype Document = Document(base: Option<string>, rates: Option<seq<(string, real)>>)

  /** The document's base currency, USD when the document names none. */
  function BaseCurrency(doc: Document): (base: string)
    ensures doc.base.Some? ==> base == doc.base.value
    ensures doc.base.None? ==> base == "USD"
  {
    doc.base.GetOr("USD")
  }

  /** Builds the URL load_data reads: the latest rates for today, the
      historical file for any other day, with "?app_id=<id>" appended when an
      id is configured. It is the same URL the fetcher computes. */
  method RatesSource(date: Date, today: Date, appId: Option<string>) returns (source: string)
    ensures source == Fetcher.ComputeUrl(date, today, appId)
    ensures date == today ==> source == OER_URL + Fetcher.Query(appId)
    ensures date != today ==> source == HIST_URL + IsoDate(date) + ".json" + Fetcher.Query(appId)
    ensures appId.None? ==> source == (if date == today then OER_URL else HIST_URL + IsoDate(date) + ".json")
  {
    UrlConstants();
    if date == today {
      source := OER_URL;
    } else {
      source := HIST_URL + IsoDate(date) + ".json";
      assert source == Fetcher.BASE_API_URL + ("/historical/" + IsoDate(date) + ".json");
    }
    assert source == Fetcher.BASE_API_URL + Fetcher.Path(date, today);
    ghost var location := source;
    if appId.Some? {
      source := source + "?app_id=" + appId.value;
    }
    assert source == location + Fetcher.Query(appId);
  }

  /** The URL the bank's test stubs for 2009-09-09. */
  lemma HistoricalSourceExample(today: Date)
    requires today != Date(2009, 9, 9)
    ensures Fetcher.ComputeUrl(Date(2009, 9, 9), today, None) == HIST_URL + "2009-09-09.json"
  {
    Text20090909();
    assert Fetcher.Query(None) == "";
  }
}
