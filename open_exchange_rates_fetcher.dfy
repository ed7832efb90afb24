/** OpenExchangeRatesFetcher.compute_url: the address of the rates document
    for a day. Date.today and the OPENEXCHANGERATES_APP_ID variable are
    parameters. */
module OpenExchangeRatesFetcher {
  import opened Wrappers
  import opened Text
  import opened Dates

  const BASE_API_URL := "https://openexchangerates.org/api"

  /** Array#compact: the present elements, in order. */
  function Compact(xs: seq<Option<string>>): (r: seq<string>)
    decreases |xs|
  {
    if xs == [] then []
    else (if xs[0].Some? then [xs[0].value] else []) + Compact(xs[1..])
  }

  /** Array#join with no separator. */
  function Join(xs: seq<string>): string
    decreases |xs|
  {
    if xs == [] then "" else xs[0] + Join(xs[1..])
  }

  /** The query part: "?app_id=<id>" when an id is configured, the text for
      nothing otherwise. */
  function Query(appId: Option<string>): string {
    if appId.Some? then "?app_id=" + appId.value else ""
  }

  /** `[a, b, c].compact.join` with `a` and `b` present. */
  lemma JoinCompactThree(a: string, b: string, c: Option<string>)
    ensures Join(Compact([Some(a), Some(b), c])) == a + b + (if c.Some? then c.value else "")
  {
    var xs := [Some(a), Some(b), c];
    var rest := if c.Some? then [c.value] else [];
    assert xs[1..] == [Some(b), c] && [Some(b), c][1..] == [c] && [c][1..] == [];
    assert Compact([c]) == rest + Compact([]);
    assert Compact([Some(b), c]) == [b] + Compact([c]);
    assert Compact(xs) == [a] + Compact([Some(b), c]);
    var ys := [a] + ([b] + rest);
    assert ys[1..] == [b] + rest && ([b] + rest)[1..] == rest;
    assert Join(rest) == if c.Some? then c.value else "" by {
      if c.Some? {
        assert rest[1..] == [];
      }
    }
    assert Join([b] + rest) == b + Join(rest);
    assert Join(ys) == a + Join([b] + rest);
    assert Compact(xs) == ys;
    var r := if c.Some? then c.value else "";
    assert a + (b + r) == a + b + r;
  }

  /** The path part: "/latest.json" for today, "/historical/YYYY-MM-DD.json"
      for any other day. */
  function Path(date: Date, today: Date): string {
    if date == today then "/latest.json" else "/historical/" + IsoDate(date) + ".json"
  }

  /** `[BASE_API_URL, path, params].compact.join`: the base, then the path,
      then the query part when an app id is configured. */
  function ComputeUrl(date: Date, today: Date, appId: Option<string>): (url: string)
    ensures url == BASE_API_URL + Path(date, today) + Query(appId)
  {
    var params := if appId.Some? then Some("?app_id=" + appId.value) else None;
    JoinCompactThree(BASE_API_URL, Path(date, today), params);
    Join(Compact([Some(BASE_API_URL), Some(Path(date, today)), params]))
  }

  /** Every URL starts with BASE_API_URL. */
  lemma UrlStartsWithBase(date: Date, today: Date, appId: Option<string>)
    ensures |ComputeUrl(date, today, appId)| > |BASE_API_URL|
    ensures ComputeUrl(date, today, appId)[..|BASE_API_URL|] == BASE_API_URL
  {
  }

  /** With no app id the URL has no query part at all. */
  lemma NoQueryWithoutAppId(date: Date, today: Date)
    ensures '?' !in ComputeUrl(date, today, None)
  {
    DateTextCharacters(date);
    assert !IsDigit('?');
    assert '?' !in IsoDate(date);
    assert '?' !in Path(date, today);
    assert Query(None) == "";
  }

  /** With an app id, the URL ends in "?app_id=" followed by the id. */
  lemma AppIdAppended(date: Date, today: Date, id: string)
    ensures var url := ComputeUrl(date, today, Some(id));
      |url| >= |id| + 8 && url[|url| - |id| - 8..] == "?app_id=" + id
      && url[..|url| - |id| - 8] == ComputeUrl(date, today, None)
  {
  }

  /** Text between a common head and a common tail is determined by the whole. */
  lemma MiddleDetermined(base: string, head: string, x: string, y: string, ext: string, query: string)
    requires base + (head + x + ext) + query == base + (head + y + ext) + query
    ensures x == y
  {
    var u := base + (head + x + ext) + query;
    var v := base + (head + y + ext) + query;
    var n := |base| + |head|;
    assert |x| == |y|;
    assert x == u[n..n + |x|];
    assert y == v[n..n + |y|];
  }

  /** Two different days other than today never share a URL. */
  lemma HistoricalUrlsDistinct(d1: Date, d2: Date, today: Date, appId: Option<string>)
    requires d1 != today && d2 != today
    requires ComputeUrl(d1, today, appId) == ComputeUrl(d2, today, appId)
    ensures d1 == d2
  {
    MiddleDetermined(BASE_API_URL, "/historical/", IsoDate(d1), IsoDate(d2), ".json", Query(appId));
    IsoDateInjective(d1, d2);
  }

  /** The URLs the fetcher's tests expect: today without an app id, ... */
  lemma LatestUrlExample(today: Date)
    ensures ComputeUrl(today, today, None) == "https://openexchangerates.org/api/latest.json"
  {
    assert Query(None) == "";
    ConcatAt(BASE_API_URL, "/latest.json", "https://openexchangerates.org/api/latest.json");
  }

  /** ... another day without an app id, ... */
  lemma HistoricalUrlExample(today: Date)
    requires today != Date(2020, 1, 1)
    ensures ComputeUrl(Date(2020, 1, 1), today, None)
      == "https://openexchangerates.org/api/historical/2020-01-01.json"
  {
    Text20200101();
    assert Path(Date(2020, 1, 1), today) == "/historical/2020-01-01.json";
    assert Query(None) == "";
    ConcatAt(BASE_API_URL, "/historical/2020-01-01.json",
      "https://openexchangerates.org/api/historical/2020-01-01.json");
  }

  /** ... and today with the app id "abc123". */
  lemma AppIdUrlExample(today: Date)
    ensures ComputeUrl(today, today, Some("abc123"))
      == "https://openexchangerates.org/api/latest.json?app_id=abc123"
  {
    assert Query(Some("abc123")) == "?app_id=abc123";
    LatestUrlExample(today);
    ConcatAt("https://openexchangerates.org/api/latest.json", "?app_id=abc123",
      "https://openexchangerates.org/api/latest.json?app_id=abc123");
  }
}
