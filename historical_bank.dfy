/** Money::Bank::HistoricalBank: a table of exchange rates per day, filled by
    set_rate or, on a miss, by loading the day's document; lookups fall back
    from the direct rate to the inverse rate to a cross rate through USD. */
module HistoricalBank {
  import opened Wrappers
  import opened Text
  import opened Dates
  import opened Currency
  import Fetcher = OpenExchangeRatesFetcher
  import Loader = OpenExchangeRatesLoader

  /** One day's rates, keyed "FROM_TO_TO". */
  type DayRates = map<string, real>

  /** The bank's @rates: day -> that day's rates. */
  type Table = map<Date, DayRates>

  /** The formats import_rates and export_rates accept. */
  const RATE_FORMATS: seq<string> := ["json", "ruby", "yaml"]

  datatype BankError =
    | UnknownCurrency(code: string)                      // Currency.wrap on a code the registry lacks
    | UnknownRate(date: Date, from: string, to: string)  // exchange_with found no rate
    | UnknownRateFormat(format: string)
    | FetchFailed(url: string)                           // the document could not be fetched or parsed
    | MalformedDocument(url: string)                     // the document has no "rates" object

  /** What get_rate returns: nil, a rate, or a float Infinity/NaN produced by
      dividing by a stored zero. */
  datatype Answer = NoRate | Rate(value: real) | NonFinite

  /** What the bank is given from outside: Date.today, the configured app id,
      and the fetch-and-parse of a URL (None when either fails). */
  datatype Env = Env(today: Date, appId: Option<string>, fetch: string -> Option<Loader.Document>)

  // ------------------------------------------------------------------ keys

  const SEPARATOR := "_TO_"

  /** rate_key_for on two known codes. */
  function Key(reg: Registry, from: string, to: string): (key: string)
    requires reg.Known(from) && reg.Known(to)
    ensures key == Upcase(reg.IsoCode(from)) + SEPARATOR + Upcase(reg.IsoCode(to))
  {
    UpcaseAppend(reg.IsoCode(from), SEPARATOR + reg.IsoCode(to));
    UpcaseAppend(SEPARATOR, reg.IsoCode(to));
    UpcaseIdentity(SEPARATOR);
    assert reg.IsoCode(from) + SEPARATOR + reg.IsoCode(to) == reg.IsoCode(from) + (SEPARATOR + reg.IsoCode(to));
    Upcase(reg.IsoCode(from) + SEPARATOR + reg.IsoCode(to))
  }

  /** rate_key_for as get_rate meets it: Currency.wrap raises for an unknown
      code, the from-code being wrapped first. */
  function RateKeyFor(reg: Registry, from: string, to: string): (r: Result<string, BankError>)
    ensures r.Success? <==> reg.Known(from) && reg.Known(to)
    ensures !reg.Known(from) ==> r == Failure(UnknownCurrency(from))
    ensures reg.Known(from) && !reg.Known(to) ==> r == Failure(UnknownCurrency(to))
  {
    if !reg.Known(from) then Failure(UnknownCurrency(from))
    else if !reg.Known(to) then Failure(UnknownCurrency(to))
    else Success(Key(reg, from, to))
  }

  // ------------------------------------------------------------------ writes

  /** A day's rates, or none when the day has no entry. */
  function Bucket(t: Table, date: Date): DayRates {
    if date in t then t[date] else map[]
  }

  /** internal_set_rate: when both codes are known, upsert the rate under the
      pair's key, creating the day's entry on first use; otherwise nothing. */
  function Put(reg: Registry, t: Table, date: Date, from: string, to: string, rate: real): (r: Table)
    ensures !(reg.Known(from) && reg.Known(to)) ==> r == t
    ensures reg.Known(from) && reg.Known(to) ==>
      && r.Keys == t.Keys + {date}
      && (forall d :: d in t && d != date ==> r[d] == t[d])
      && r[date].Keys == Bucket(t, date).Keys + {Key(reg, from, to)}
      && r[date][Key(reg, from, to)] == rate
      && (forall k :: k in Bucket(t, date) && k != Key(reg, from, to) ==> r[date][k] == Bucket(t, date)[k])
  {
    if reg.Known(from) && reg.Known(to) then
      t[date := Bucket(t, date)[Key(reg, from, to) := rate]]
    else
      t
  }

  /** The table after load_data's loop has written every (currency, rate)
      pair of a document under `date`, from `base`, in document order. */
  function Written(reg: Registry, t: Table, date: Date, base: string, entries: seq<(string, real)>): Table
    decreases |entries|
  {
    if entries == [] then t
    else
      var last := entries[|entries| - 1];
      Put(reg, Written(reg, t, date, base, entries[..|entries| - 1]), date, base, last.0, last.1)
  }

  // ------------------------------------------------------------------ lookup

  /** 1.0 / r in Ruby floats: Infinity when r is zero. */
  function Inverse(r: real): Answer {
    if r == 0.0 then NonFinite else Rate(1.0 / r)
  }

  /** The rate of one USD in `code`: USD_TO_CODE if stored, else the inverse
      of CODE_TO_USD if stored, else nil. */
  function BaseRate(reg: Registry, rates: DayRates, code: string): Result<Answer, BankError> {
    var direct :- RateKeyFor(reg, "USD", code);
    if direct in rates then Success(Rate(rates[direct]))
    else
      var inverse :- RateKeyFor(reg, code, "USD");
      if inverse in rates then Success(Inverse(rates[inverse])) else Success(NoRate)
  }

  /** to_base_rate / from_base_rate when both are present, in Ruby floats: a
      finite number over Infinity is 0.0, anything else non-finite or over
      zero is Infinity or NaN. */
  function Cross(toBase: Answer, fromBase: Answer): (r: Answer)
    ensures r.NoRate? <==> toBase.NoRate? || fromBase.NoRate?
    ensures toBase.Rate? && fromBase.Rate? && fromBase.value != 0.0 ==>
      r.Rate? && r.value * fromBase.value == toBase.value
  {
    if toBase.NoRate? || fromBase.NoRate? then NoRate
    else if toBase.NonFinite? then NonFinite
    else if fromBase.NonFinite? then Rate(0.0)
    else if fromBase.value == 0.0 then NonFinite
    else Rate(toBase.value / fromBase.value)
  }

  /** get_rate's derivation over one day's rates: the direct entry, else the
      inverse of the reverse entry, else the cross rate through USD. */
  function Derive(reg: Registry, rates: DayRates, from: string, to: string): Result<Answer, BankError> {
    var direct :- RateKeyFor(reg, from, to);
    if direct in rates then Success(Rate(rates[direct]))
    else
      var reverse :- RateKeyFor(reg, to, from);
      if reverse in rates then Success(Inverse(rates[reverse]))
      else
        var fromBase :- BaseRate(reg, rates, from);
        var toBase :- BaseRate(reg, rates, to);
        Success(Cross(toBase, fromBase))
  }

  /** The answer get_rate gives over a table: nil for a day without entry. */
  function Resolve(reg: Registry, t: Table, date: Date, from: string, to: string): Result<Answer, BankError> {
    if date in t then Derive(reg, t[date], from, to) else Success(NoRate)
  }

  /** What load_data does to the table: fetch the day's document, then write
      its rates from its base currency (USD by default). */
  function LoadOutcome(reg: Registry, t: Table, date: Date, env: Env): Result<Table, BankError> {
    var url := Fetcher.ComputeUrl(date, env.today, env.appId);
    match env.fetch(url)
    case None => Failure(FetchFailed(url))
    case Some(doc) =>
      if doc.rates.None? then Failure(MalformedDocument(url))
      else Success(Written(reg, t, date, Loader.BaseCurrency(doc), doc.rates.value))
  }

  /** The table get_rate reads from: the current one when the day has an
      entry, otherwise the one load_data leaves. */
  function TableFor(reg: Registry, t: Table, date: Date, env: Env): Result<Table, BankError> {
    if date in t then Success(t) else LoadOutcome(reg, t, date, env)
  }

  /** same_currency?: both codes wrapped, then their ISO codes compared. */
  function SameCurrency(reg: Registry, a: string, b: string): Result<bool, BankError> {
    if !reg.Known(a) then Failure(UnknownCurrency(a))
    else if !reg.Known(b) then Failure(UnknownCurrency(b))
    else Success(reg.IsoCode(a) == reg.IsoCode(b))
  }

  /** An amount in a currency; the amount itself is never inspected here. */
  datatype Money = Money(cents: int, currency: string)

  /** What exchange_with hands to the conversion arithmetic: the amount
      itself for the same currency, else the amount, target and rate. */
  datatype Exchange = Unchanged(money: Money) | Convert(money: Money, target: string, rate: Answer)

  // ------------------------------------------------------------------ lookup laws

  /** A stored direct rate always wins, whatever its value. */
  lemma DirectRateWins(reg: Registry, rates: DayRates, from: string, to: string)
    requires reg.Known(from) && reg.Known(to) && Key(reg, from, to) in rates
    ensures Derive(reg, rates, from, to) == Success(Rate(rates[Key(reg, from, to)]))
  {
  }

  /** Without a direct rate, the reverse rate r gives 1/r (Infinity for r = 0). */
  lemma InverseRate(reg: Registry, rates: DayRates, from: string, to: string)
    requires reg.Known(from) && reg.Known(to)
    requires Key(reg, from, to) !in rates && Key(reg, to, from) in rates
    ensures var r := rates[Key(reg, to, from)];
      Derive(reg, rates, from, to) == Success(if r == 0.0 then NonFinite else Rate(1.0 / r))
  {
  }

  /** The rate of one USD in a known code, when USD is known: USD_TO_CODE,
      else 1 / CODE_TO_USD, else nil. */
  lemma BaseRateCases(reg: Registry, rates: DayRates, code: string)
    requires reg.Known("USD") && reg.Known(code)
    ensures Key(reg, "USD", code) in rates ==>
      BaseRate(reg, rates, code) == Success(Rate(rates[Key(reg, "USD", code)]))
    ensures Key(reg, "USD", code) !in rates && Key(reg, code, "USD") in rates ==>
      BaseRate(reg, rates, code) == Success(Inverse(rates[Key(reg, code, "USD")]))
    ensures Key(reg, "USD", code) !in rates && Key(reg, code, "USD") !in rates ==>
      BaseRate(reg, rates, code) == Success(NoRate)
  {
  }

  /** With neither a direct nor a reverse rate, the answer is the cross rate
      through USD: to's base rate over from's base rate. */
  lemma CrossRateThroughUsd(reg: Registry, rates: DayRates, from: string, to: string)
    requires reg.Known("USD") && reg.Known(from) && reg.Known(to)
    requires Key(reg, from, to) !in rates && Key(reg, to, from) !in rates
    ensures BaseRate(reg, rates, from).Success? && BaseRate(reg, rates, to).Success?
    ensures Derive(reg, rates, from, to)
      == Success(Cross(BaseRate(reg, rates, to).value, BaseRate(reg, rates, from).value))
  {
    BaseRateCases(reg, rates, from);
    BaseRateCases(reg, rates, to);
  }

  /** The triangulation law: with USD_TO_FROM = r1 (non-zero), USD_TO_TO = r2
      and no direct or reverse rate, the answer is exactly r2 / r1, the rate
      that makes r1 units of from worth r2 units of to. */
  lemma TriangulatedRate(reg: Registry, rates: DayRates, from: string, to: string)
    requires reg.Known("USD") && reg.Known(from) && reg.Known(to)
    requires Key(reg, from, to) !in rates && Key(reg, to, from) !in rates
    requires Key(reg, "USD", from) in rates && Key(reg, "USD", to) in rates
    requires rates[Key(reg, "USD", from)] != 0.0
    ensures Derive(reg, rates, from, to).Success?
    ensures var r1, r2 := rates[Key(reg, "USD", from)], rates[Key(reg, "USD", to)];
      Derive(reg, rates, from, to) == Success(Rate(r2 / r1))
      && Derive(reg, rates, from, to).value.value * r1 == r2
  {
    CrossRateThroughUsd(reg, rates, from, to);
    BaseRateCases(reg, rates, from);
    BaseRateCases(reg, rates, to);
  }

  /** With neither a direct nor a reverse rate, the answer is nil exactly when
      one of the two codes has no rate against USD in either direction. */
  lemma NoRateWhenBaseMissing(reg: Registry, rates: DayRates, from: string, to: string)
    requires reg.Known("USD") && reg.Known(from) && reg.Known(to)
    requires Key(reg, from, to) !in rates && Key(reg, to, from) !in rates
    ensures Derive(reg, rates, from, to) == Success(NoRate) <==>
      (Key(reg, "USD", from) !in rates && Key(reg, from, "USD") !in rates) ||
      (Key(reg, "USD", to) !in rates && Key(reg, to, "USD") !in rates)
  {
    CrossRateThroughUsd(reg, rates, from, to);
    BaseRateCases(reg, rates, from);
    BaseRateCases(reg, rates, to);
  }

  /** get_rate raises UnknownCurrency for an unknown code on a day that has
      rates, and answers nil without looking at the codes on a day that has none. */
  lemma UnknownCodeRaises(reg: Registry, t: Table, date: Date, from: string, to: string)
    requires !reg.Known(from) || !reg.Known(to)
    ensures date in t ==>
      Resolve(reg, t, date, from, to) == Failure(UnknownCurrency(if !reg.Known(from) then from else to))
    ensures date !in t ==> Resolve(reg, t, date, from, to) == Success(NoRate)
  {
  }

  /** The same code on both sides has no special case. A stored CODE_TO_CODE
      is answered directly. Otherwise the reverse key is the same key, so the
      answer is the cross of the code's base rate with itself: exactly 1 for a
      non-zero USD rate in either direction, non-finite for a zero one, and
      nil when neither direction is stored. */
  lemma SameCodeCrossesToOne(reg: Registry, rates: DayRates, code: string)
    requires reg.Known("USD") && reg.Known(code)
    ensures Key(reg, code, code) in rates ==>
      Derive(reg, rates, code, code) == Success(Rate(rates[Key(reg, code, code)]))
    ensures Key(reg, code, code) !in rates ==>
      (Derive(reg, rates, code, code) == Success(NoRate) <==>
         Key(reg, "USD", code) !in rates && Key(reg, code, "USD") !in rates)
    ensures Key(reg, code, code) !in rates && Key(reg, "USD", code) in rates ==>
      Derive(reg, rates, code, code)
        == Success(if rates[Key(reg, "USD", code)] != 0.0 then Rate(1.0) else NonFinite)
    ensures Key(reg, code, code) !in rates && Key(reg, "USD", code) !in rates && Key(reg, code, "USD") in rates ==>
      Derive(reg, rates, code, code)
        == Success(if rates[Key(reg, code, "USD")] != 0.0 then Rate(1.0) else NonFinite)
  {
    if Key(reg, code, code) in rates {
      DirectRateWins(reg, rates, code, code);
    } else {
      CrossRateThroughUsd(reg, rates, code, code);
      BaseRateCases(reg, rates, code);
      if Key(reg, "USD", code) !in rates && Key(reg, code, "USD") in rates {
        var r := rates[Key(reg, code, "USD")];
        if r != 0.0 {
          assert Cross(Rate(1.0 / r), Rate(1.0 / r)) == Rate(1.0);
        }
      }
    }
  }

  /** After set_rate(d, A, B, r) for known A and B, get_rate(d, A, B) reads the
      day without loading anything and answers exactly r. */
  lemma GetAfterSet(reg: Registry, t: Table, d: Date, a: string, b: string, r: real, env: Env)
    requires reg.Known(a) && reg.Known(b)
    ensures var t' := Put(reg, t, d, a, b, r);
      d in t' && TableFor(reg, t', d, env) == Success(t')
      && Resolve(reg, t', d, a, b) == Success(Rate(r))
  {
    var t' := Put(reg, t, d, a, b, r);
    DirectRateWins(reg, t'[d], a, b);
  }

  /** A write with an unknown code changes nothing, so what get_rate answers
      (and whether it loads) is what it was before. */
  lemma UnknownWriteIsNoOp(reg: Registry, t: Table, d: Date, a: string, b: string, r: real,
                            day: Date, from: string, to: string, env: Env)
    requires !reg.Known(a) || !reg.Known(b)
    ensures (day in Put(reg, t, d, a, b, r)) == (day in t)
    ensures TableFor(reg, Put(reg, t, d, a, b, r), day, env) == TableFor(reg, t, day, env)
    ensures Resolve(reg, Put(reg, t, d, a, b, r), day, from, to) == Resolve(reg, t, day, from, to)
  {
  }

  /** A registry knowing USD, EUR and GBP under their own codes. */
  function ThreeCurrencies(): Registry {
    Registry(map["USD" := "USD", "EUR" := "EUR", "GBP" := "GBP"])
  }

  lemma ThreeCurrencyKeys()
    ensures var reg := ThreeCurrencies();
      && Key(reg, "USD", "EUR") == "USD_TO_EUR" && Key(reg, "EUR", "USD") == "EUR_TO_USD"
      && Key(reg, "GBP", "USD") == "GBP_TO_USD" && Key(reg, "USD", "GBP") == "USD_TO_GBP"
      && Key(reg, "GBP", "EUR") == "GBP_TO_EUR" && Key(reg, "EUR", "GBP") == "EUR_TO_GBP"
  {
    UpcaseIdentity("USD");
    UpcaseIdentity("EUR");
    UpcaseIdentity("GBP");
  }

  /** The bank test's interpolation case: with USD->EUR 1.234 and GBP->USD
      1.456 stored, EUR->USD is 1/1.234 and GBP->EUR is 1.456 * 1.234. */
  lemma InterpolationExample(d: Date)
    ensures var reg := ThreeCurrencies();
      var t := Put(reg, Put(reg, map[], d, "USD", "EUR", 1.234), d, "GBP", "USD", 1.456);
      && Resolve(reg, t, d, "EUR", "USD") == Success(Rate(1.0 / 1.234))
      && Resolve(reg, t, d, "GBP", "EUR") == Success(Rate(1.456 * 1.234))
  {
    var reg := ThreeCurrencies();
    ThreeCurrencyKeys();
    var t := Put(reg, Put(reg, map[], d, "USD", "EUR", 1.234), d, "GBP", "USD", 1.456);
    var rates := t[d];
    assert rates == map["USD_TO_EUR" := 1.234, "GBP_TO_USD" := 1.456];
    InverseRate(reg, rates, "EUR", "USD");
    CrossRateThroughUsd(reg, rates, "GBP", "EUR");
    BaseRateCases(reg, rates, "GBP");
    BaseRateCases(reg, rates, "EUR");
  }

  // ------------------------------------------------------------------ load laws

  /** Loading writes under its own day only: every other day is untouched. */
  lemma {:induction false} WrittenKeepsOtherDays(reg: Registry, t: Table, date: Date, base: string, entries: seq<(string, real)>)
    ensures forall d :: d != date ==> (d in Written(reg, t, date, base, entries) <==> d in t)
    ensures forall d :: d != date && d in t ==> Written(reg, t, date, base, entries)[d] == t[d]
    decreases |entries|
  {
    if entries != [] {
      WrittenKeepsOtherDays(reg, t, date, base, entries[..|entries| - 1]);
    }
  }

  /** A document whose base is unknown writes nothing. */
  lemma {:induction false} WrittenUnknownBase(reg: Registry, t: Table, date: Date, base: string, entries: seq<(string, real)>)
    requires !reg.Known(base)
    ensures Written(reg, t, date, base, entries) == t
    decreases |entries|
  {
    if entries != [] {
      WrittenUnknownBase(reg, t, date, base, entries[..|entries| - 1]);
    }
  }

  /** After loading, the day has an entry exactly when it had one before or
      the base and at least one of the document's currencies are known. */
  lemma {:induction false} WrittenCreatesDay(reg: Registry, t: Table, date: Date, base: string, entries: seq<(string, real)>)
    ensures date in Written(reg, t, date, base, entries) <==>
      date in t || (reg.Known(base) && exists j :: 0 <= j < |entries| && reg.Known(entries[j].0))
    decreases |entries|
  {
    if entries != [] {
      var init := entries[..|entries| - 1];
      WrittenCreatesDay(reg, t, date, base, init);
      if reg.Known(base) && exists j :: 0 <= j < |entries| && reg.Known(entries[j].0) {
        var j :| 0 <= j < |entries| && reg.Known(entries[j].0);
        if j < |entries| - 1 {
          assert init[j] == entries[j];
        }
      }
      if reg.Known(base) && exists j :: 0 <= j < |init| && reg.Known(init[j].0) {
        var j :| 0 <= j < |init| && reg.Known(init[j].0);
        assert entries[j] == init[j];
      }
    }
  }

  /** An entry whose currency is unknown is skipped: loading the document
      without it gives the same table. */
  lemma {:induction false} WrittenSkipsUnknown(reg: Registry, t: Table, date: Date, base: string, entries: seq<(string, real)>, i: nat)
    requires i < |entries| && !reg.Known(entries[i].0)
    ensures Written(reg, t, date, base, entries) == Written(reg, t, date, base, entries[..i] + entries[i + 1..])
    decreases |entries|
  {
    var init := entries[..|entries| - 1];
    if i == |entries| - 1 {
      assert entries[..i] + entries[i + 1..] == init;
    } else {
      var without := entries[..i] + entries[i + 1..];
      assert without[..|without| - 1] == init[..i] + init[i + 1..];
      assert without[|without| - 1] == entries[|entries| - 1];
      assert init[i] == entries[i];
      WrittenSkipsUnknown(reg, t, date, base, init, i);
    }
  }

  /** The last document entry for a key decides its rate: if the base and the
      i-th currency are known and no later known currency maps to the same
      key, the day holds the i-th rate under that key. */
  lemma {:induction false} WrittenLastWins(reg: Registry, t: Table, date: Date, base: string, entries: seq<(string, real)>, i: nat)
    requires i < |entries| && reg.Known(base) && reg.Known(entries[i].0)
    requires forall j :: i < j < |entries| && reg.Known(entries[j].0) ==>
      Key(reg, base, entries[j].0) != Key(reg, base, entries[i].0)
    ensures var w := Written(reg, t, date, base, entries);
      date in w && Key(reg, base, entries[i].0) in w[date]
      && w[date][Key(reg, base, entries[i].0)] == entries[i].1
    decreases |entries|
  {
    var init := entries[..|entries| - 1];
    if i < |entries| - 1 {
      assert init[i] == entries[i];
      forall j | i < j < |init| && reg.Known(init[j].0)
        ensures Key(reg, base, init[j].0) != Key(reg, base, init[i].0)
      {
        assert init[j] == entries[j];
      }
      WrittenLastWins(reg, t, date, base, init, i);
    }
  }

  /** The bank test's download case: for a day without entry whose document
      has base USD (named or by default) and rates EUR at r as its last EUR entry,
      get_rate(day, USD, EUR) loads the day and answers exactly r. */
  lemma DownloadedRateServed(reg: Registry, t: Table, date: Date, env: Env, doc: Loader.Document,
                             entries: seq<(string, real)>, i: nat)
    requires date !in t && reg.Known("USD") && reg.Known("EUR")
    requires env.fetch(Fetcher.ComputeUrl(date, env.today, env.appId)) == Some(doc)
    requires Loader.BaseCurrency(doc) == "USD" && doc.rates == Some(entries)
    requires i < |entries| && entries[i].0 == "EUR"
    requires forall j :: i < j < |entries| && reg.Known(entries[j].0) ==>
      Key(reg, "USD", entries[j].0) != Key(reg, "USD", "EUR")
    ensures TableFor(reg, t, date, env).Success?
    ensures Resolve(reg, TableFor(reg, t, date, env).value, date, "USD", "EUR") == Success(Rate(entries[i].1))
  {
    WrittenLastWins(reg, t, date, "USD", entries, i);
    var w := Written(reg, t, date, "USD", entries);
    DirectRateWins(reg, w[date], "USD", "EUR");
  }

  // ------------------------------------------------------------------ integer rates

  /** A Ruby number as it can reach the cross-rate division: an Integer (from
      set_rate(d, "USD", "JPY", 110) or an integral JSON rate) or a Float. */
  datatype Numeric = Integer(i: int) | Float(f: real)

  function ValueOf(n: Numeric): real {
    if n.Integer? then n.i as real else n.f
  }

  /** Integer#/: rounds toward negative infinity. */
  function FloorDiv(a: int, b: int): int
    requires b != 0
  {
    if b > 0 then a / b else (-a) / (-b)
  }

  /** to_base_rate / from_base_rate as Ruby evaluates it: Integer division
      when both operands are Integers; None where Ruby raises
      ZeroDivisionError or yields a float Infinity/NaN. */
  function CrossAsWritten(toBase: Numeric, fromBase: Numeric): Option<Numeric> {
    if toBase.Integer? && fromBase.Integer? then
      if fromBase.i == 0 then None else Some(Integer(FloorDiv(toBase.i, fromBase.i)))
    else if ValueOf(fromBase) == 0.0 then None
    else Some(Float(ValueOf(toBase) / ValueOf(fromBase)))
  }

  /** With USD_TO_A = 2 and USD_TO_B = 3 stored as Integers, the code as
      written answers 1 for A -> B, where the cross rate is 1.5. */
  lemma IntegerBaseRatesTruncate()
    ensures CrossAsWritten(Integer(3), Integer(2)) == Some(Integer(1))
    ensures Cross(Rate(3.0), Rate(2.0)) == Rate(1.5)
    ensures ValueOf(CrossAsWritten(Integer(3), Integer(2)).value) * 2.0 != 3.0
  {
  }

  /** An Integer over an Integer zero raises ZeroDivisionError in Ruby (no
      result), where the model's cross answers NonFinite. */
  lemma IntegerZeroBaseRaises(toBase: int)
    ensures CrossAsWritten(Integer(toBase), Integer(0)) == None
    ensures Cross(Rate(toBase as real), Rate(0.0)) == NonFinite
  {
  }

  /** The corrected division agrees with Ruby whenever either operand is a
      Float, and always satisfies quotient * from_base == to_base. */
  lemma CrossIsExactQuotient(toBase: Numeric, fromBase: Numeric)
    requires ValueOf(fromBase) != 0.0
    ensures Cross(Rate(ValueOf(toBase)), Rate(ValueOf(fromBase))).Rate?
    ensures Cross(Rate(ValueOf(toBase)), Rate(ValueOf(fromBase))).value * ValueOf(fromBase) == ValueOf(toBase)
    ensures toBase.Float? || fromBase.Float? ==>
      CrossAsWritten(toBase, fromBase) == Some(Float(Cross(Rate(ValueOf(toBase)), Rate(ValueOf(fromBase))).value))
  {
  }

  // ------------------------------------------------------------------ the bank

  class Bank {
    const registry: Registry
    var rates: Table
    /** Every URL load_data has asked for, oldest first. */
    ghost var requests: seq<string>

    /** setup: an empty table. */
    constructor (registry: Registry)
      ensures this.registry == registry && rates == map[] && requests == []
    {
      this.registry := registry;
      rates := map[];
      requests := [];
    }

    /** internal_set_rate: returns the rate when it was stored, nil otherwise. */
    method InternalSetRate(date: Date, from: string, to: string, rate: real) returns (stored: Option<real>)
      modifies this
      ensures rates == Put(registry, old(rates), date, from, to, rate)
      ensures stored == (if registry.Known(from) && registry.Known(to) then Some(rate) else None)
      ensures requests == old(requests)
    {
      if registry.Known(from) && registry.Known(to) {
        var dateRates := if date in rates then rates[date] else map[];
        rates := rates[date := dateRates[Key(registry, from, to) := rate]];
        stored := Some(rate);
      } else {
        stored := None;
      }
    }

    /** set_rate: internal_set_rate under the bank's lock. */
    method SetRate(date: Date, from: string, to: string, rate: real) returns (stored: Option<real>)
      modifies this
      ensures rates == Put(registry, old(rates), date, from, to, rate)
      ensures stored == (if registry.Known(from) && registry.Known(to) then Some(rate) else None)
      ensures requests == old(requests)
    {
      stored := InternalSetRate(date, from, to, rate);
    }

    /** load_data: fetch the day's document and write each of its rates from
      its base currency under `date`. */
    method LoadData(date: Date, env: Env) returns (res: Result<(), BankError>)
      modifies this
      ensures requests == old(requests) + [Fetcher.ComputeUrl(date, env.today, env.appId)]
      ensures var outcome := LoadOutcome(registry, old(rates), date, env);
        && (outcome.Success? ==> res.Success? && rates == outcome.value)
        && (outcome.Failure? ==> res == Failure(outcome.error) && rates == old(rates))
    {
      var source := Loader.RatesSource(date, env.today, env.appId);
      requests := requests + [source];
      var fetched := env.fetch(source);
      if fetched.None? {
        return Failure(FetchFailed(source));
      }
      var doc := fetched.value;
      if doc.rates.None? {
        return Failure(MalformedDocument(source));
      }
      var base := Loader.BaseCurrency(doc);
      var entries := doc.rates.value;
      var i := 0;
      while i < |entries|
        invariant 0 <= i <= |entries|
        invariant rates == Written(registry, old(rates), date, base, entries[..i])
        invariant requests == old(requests) + [source]
      {
        assert entries[..i + 1][..i] == entries[..i];
        var _ := InternalSetRate(date, base, entries[i].0, entries[i].1);
        i := i + 1;
      }
      assert entries[..|entries|] == entries;
      return Success(());
    }

    /** get_rate: on a day without entry, load the day once and read again;
      then derive the rate. A day that has an entry is never fetched. */
    method GetRate(date: Date, from: string, to: string, env: Env) returns (res: Result<Answer, BankError>)
      modifies this
      ensures requests == old(requests) + (if date in old(rates) then [] else [Fetcher.ComputeUrl(date, env.today, env.appId)])
      ensures date in old(rates) ==> rates == old(rates)
      ensures var after := TableFor(registry, old(rates), date, env);
        && (after.Failure? ==> res == Failure(after.error) && rates == old(rates))
        && (after.Success? ==> rates == after.value && res == Resolve(registry, rates, date, from, to))
    {
      if date !in rates {
        var loaded := LoadData(date, env);
        if loaded.Failure? {
          return Failure(loaded.error);
        }
      }
      if date in rates {
        res := Derive(registry, rates[date], from, to);
      } else {
        res := Success(NoRate);
      }
    }

    /** exchange_with: the amount itself for the same currency; otherwise the
      day's rate (today when no day is given), and UnknownRate when there is
      none. The conversion arithmetic that follows is not modelled. */
    method ExchangeWith(date: Option<Date>, from: Money, toCurrency: string, env: Env) returns (res: Result<Exchange, BankError>)
      modifies this
      ensures var same := SameCurrency(registry, from.currency, toCurrency);
        same != Success(false) ==> rates == old(rates) && requests == old(requests)
      ensures res == Success(Unchanged(from)) <==> SameCurrency(registry, from.currency, toCurrency) == Success(true)
      ensures var same := SameCurrency(registry, from.currency, toCurrency);
        same.Failure? ==> res == Failure(same.error)
      ensures var day := date.GetOr(env.today);
        SameCurrency(registry, from.currency, toCurrency) == Success(false) ==>
          requests == old(requests) + (if day in old(rates) then [] else [Fetcher.ComputeUrl(day, env.today, env.appId)])
      ensures var day := date.GetOr(env.today);
        var after := TableFor(registry, old(rates), day, env);
        SameCurrency(registry, from.currency, toCurrency) == Success(false) ==>
          && (after.Failure? ==> res == Failure(after.error) && rates == old(rates))
          && (after.Success? ==> rates == after.value)
          && (after.Success? ==>
                var answer := Resolve(registry, after.value, day, from.currency, toCurrency);
                && (answer.Failure? ==> res == Failure(answer.error))
                && (answer == Success(NoRate) ==> res == Failure(UnknownRate(day, from.currency, toCurrency)))
                && (answer.Success? && !answer.value.NoRate? ==> res == Success(Convert(from, toCurrency, answer.value))))
    {
      var day := if date.Some? then date.value else env.today;
      var same := SameCurrency(registry, from.currency, toCurrency);
      if same.Failure? {
        return Failure(same.error);
      }
      if same.value {
        return Success(Unchanged(from));
      }
      var rate := GetRate(day, from.currency, toCurrency, env);
      if rate.Failure? {
        return Failure(rate.error);
      }
      if rate.value.NoRate? {
        return Failure(UnknownRate(day, from.currency, toCurrency));
      }
      res := Success(Convert(from, toCurrency, rate.value));
    }

    /** export_rates: the table handed to the serialiser, or UnknownRateFormat
      for a format outside RATE_FORMATS. Nothing changes. */
    method ExportRates(format: string) returns (res: Result<Table, BankError>)
      ensures res.Success? <==> format in RATE_FORMATS
      ensures res.Success? ==> res.value == rates
      ensures res.Failure? ==> res.error == UnknownRateFormat(format)
    {
      if format !in RATE_FORMATS {
        return Failure(UnknownRateFormat(format));
      }
      res := Success(rates);
    }

    /** import_rates: the deserialised table replaces the whole of @rates; a
      format outside RATE_FORMATS raises before anything changes. */
    method ImportRates(format: string, table: Table) returns (res: Result<(), BankError>)
      modifies this
      ensures format in RATE_FORMATS ==> res == Success(()) && rates == table
      ensures format !in RATE_FORMATS ==> res == Failure(UnknownRateFormat(format)) && rates == old(rates)
      ensures requests == old(requests)
    {
      if format !in RATE_FORMATS {
        return Failure(UnknownRateFormat(format));
      }
      rates := table;
      res := Success(());
    }

    /** Importing what was exported in the same format leaves the table as it was. */
    method ExportThenImport(format: string) returns (res: Result<(), BankError>)
      modifies this
      ensures rates == old(rates) && requests == old(requests)
      ensures res.Success? <==> format in RATE_FORMATS
    {
      var snapshot := ExportRates(format);
      if snapshot.Failure? {
        return Failure(snapshot.error);
      }
      res := ImportRates(format, snapshot.value);
    }
  }
}
