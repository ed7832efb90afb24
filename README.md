# money-historical-bank in Dafny

A model of the rate table behind the `money-historical-bank` Ruby gem, with
proofs about it. The gem keeps exchange rates per calendar day and answers
`get_rate(date, from, to)`. It tries the direct rate first, then the inverse of
the reverse rate, then a cross rate through USD. When a day has no rates at all,
it loads that day's document from Open Exchange Rates first. Around this core,
the model covers:

- the in-memory historical rates store;
- the URL construction of the fetcher and of the loader;
- the month-level cache key of `HistoricalBankConfigure`.

Modules, one per source file, plus four small support modules:

| module | source | form |
|---|---|---|
| `HistoricalBank` | `lib/money/bank/historical_bank.rb` and the write loop of `lib/money/bank/open_exchange_rates_loader.rb` (mixed into the bank) | class `Bank`: a `map<Date, map<string, real>>` field and methods. The lookup chain is the function `Derive`. |
| `HistoricalMemory` | `lib/money/rates_store/historical_memory.rb` | class `MemoryStore`: a `map<string, map<string, real>>` field. `EachRate` is a nested loop. |
| `OpenExchangeRatesLoader` | `lib/money/bank/open_exchange_rates_loader.rb` | URL constants, the parsed `Document`, and `RatesSource`, which assembles the URL step by step. |
| `OpenExchangeRatesFetcher` | `lib/open_exchange_rates_fetcher.rb` | `ComputeUrl`, a pure function built from `Compact` and `Join`. |
| `HistoricalBankConfigure` | `lib/money/time_machine_bank/historical_bank_configure.rb` | `BuildKey`, a pure function. |
| `Dates`, `Text`, `Currency`, `Wrappers` | Ruby's `Date`, `String`, `Money::Currency` | Day rendering, upcase, split, the currency registry, and Option/Result. |

How outside inputs are modelled:

- **Currency registry.** A `Registry`: a map from every spelling the money library accepts to the ISO code it names. Known means the spelling is a key. `Currency.wrap` on an unknown code raises, and the model returns `Failure(UnknownCurrency(code))`.
- **Time, configuration and network.** `Date.today`, `ENV['OPENEXCHANGERATES_APP_ID']` and fetch-then-parse are bundled into the `Env` parameter. `fetch` maps a URL to a parsed document, or to `None` when fetching or parsing fails.
- **Rates.** Rates are `real`. A rate is present when its key is in the map; in Ruby any stored number is truthy, including `0.0`. Dividing by a stored zero gives a float `Infinity` or `NaN` in Ruby when either operand is a Float. An Integer divided by an Integer zero at line 86 of `lib/money/bank/historical_bank.rb` raises ZeroDivisionError instead (see Findings and `IntegerZeroBaseRaises`). In both cases the model answers `Answer.NonFinite`; Ruby's `finite / Infinity = 0.0` is reproduced as `Rate(0.0)`.
- **Requests.** The ghost field `Bank.requests` records every URL that `load_data` asks for. This lets `GetRate` state that a day already in the table is never fetched, and that a missing day is fetched exactly once per call.

Three behaviours of the code that are easy to miss:

- **`import_rates`** replaces `@rates` wholesale with the deserialised table. It does not re-validate entries through `set_rate`.
- **Identical currencies.** `get_rate` has no special case for them. A stored `A_TO_A`, for instance one written by `load_data` from a document that lists its own base currency, is answered directly. Otherwise the reverse key is the same key, so `get_rate(d, A, A)` is the cross of A's USD base rate with itself. That is exactly 1 when `USD_TO_A` or `A_TO_USD` is stored and non-zero, non-finite when the stored one is zero (ZeroDivisionError when it is an Integer 0; see Findings), and nil when neither is stored (`SameCodeCrossesToOne`). Only `exchange_with` short-cuts equal currencies.
- **Separate tables.** The bank keeps its own `@rates` table keyed by `Date`. It does not go through `HistoricalMemory`, which is keyed by `date.to_s`. The two are modelled separately.

## Model

| member | source | states |
|---|---|---|
| `HistoricalBank.Key` | lib/money/bank/historical_bank.rb:245-247 | The rate key is the upcased ISO code of `from`, then `_TO_`, then the upcased ISO code of `to`. |
| `HistoricalBank.RateKeyFor` | lib/money/bank/historical_bank.rb:245-247 | Building a key fails with UnknownCurrency for the first unknown code, `from` before `to`. It succeeds exactly when both codes are known. |
| `HistoricalBank.Written` | lib/money/bank/open_exchange_rates_loader.rb:27-31 | The table after load_data's write loop: `Put` of each document entry in order, from the base currency under the day. Its laws are in WrittenKeepsOtherDays, WrittenUnknownBase, WrittenSkipsUnknown, WrittenCreatesDay and WrittenLastWins, and LoadData's loop is proved equal to it. |
| `HistoricalBank.Put` | lib/money/bank/historical_bank.rb:258-263 | A write with an unknown code returns the same table. A valid write adds the day if missing and upserts exactly one key with the rate. Every other day and every other key keep their values. |
| `HistoricalBank.Bank.constructor` | lib/money/bank/historical_bank.rb:18-22 | The table starts empty. |
| `HistoricalBank.Bank.InternalSetRate` | lib/money/bank/historical_bank.rb:258-263 | The new table is `Put` of the old one. The result is the rate when it was stored and nil otherwise. Nothing is fetched. |
| `HistoricalBank.Bank.SetRate` | lib/money/bank/historical_bank.rb:36-40 | Same effect as InternalSetRate. |
| `HistoricalBank.UnknownWriteIsNoOp` | lib/money/bank/historical_bank.rb:259 | After a write naming an unknown currency, every day is present exactly when it was before. get_rate then loads (or not) and answers, for any day and pair, exactly as it did before the write. |
| `HistoricalBank.Bank.LoadData` | lib/money/bank/open_exchange_rates_loader.rb:16-32 | Asks for exactly one URL, the fetcher's URL for the day. A failed fetch and a document without `rates` are errors, and the table is unchanged. Otherwise every document entry is written in order from the base currency under the day. |
| `HistoricalBank.Bank.GetRate` | lib/money/bank/historical_bank.rb:61-92 | A day already in the table causes no request and no change, and the answer is derived from it. A missing day causes exactly one load. A load error is passed on unchanged. Otherwise the answer is derived from the reloaded table, and is nil when the day is still missing. |
| `HistoricalBank.Derive` | lib/money/bank/historical_bank.rb:67-90 | get_rate's derivation over one day's rates: the direct entry, else the inverse of the reverse entry, else the cross through USD. Its laws are in DirectRateWins, InverseRate, CrossRateThroughUsd, TriangulatedRate, NoRateWhenBaseMissing, UnknownCodeRaises and SameCodeCrossesToOne. |
| `HistoricalBank.BaseRate` | lib/money/bank/historical_bank.rb:77-84 | A code's USD base rate: USD_TO_X, else the inverse of X_TO_USD, else nil. Its law is BaseRateCases. |
| `HistoricalBank.LoadOutcome` | lib/money/bank/open_exchange_rates_loader.rb:16-32 | What load_data leaves. A failed fetch or a document without rates is an error; otherwise the table is Written from the document's base (USD by default). LoadData is proved against it. |
| `HistoricalBank.TableFor` | lib/money/bank/historical_bank.rb:63-66 | The table get_rate reads: the current one when the day has an entry, otherwise what load_data leaves. GetRate and ExchangeWith are proved against it; GetAfterSet and DownloadedRateServed state its cases. |
| `HistoricalBank.Resolve` | lib/money/bank/historical_bank.rb:67-90 | nil for a day without an entry, otherwise Derive over that day's rates. GetRate's answer is stated in it; its laws are UnknownCodeRaises, GetAfterSet, UnknownWriteIsNoOp and InterpolationExample. |
| `HistoricalBank.Inverse` | lib/money/bank/historical_bank.rb:73-83 | `1.0 / r` as lines 73, 79 and 83 compute it: 1/r, and non-finite when r is 0. Its laws are InverseRate and BaseRateCases. |
| `HistoricalBank.SameCurrency` | lib/money/bank/historical_bank.rb:139 | same_currency?: both codes wrapped (UnknownCurrency for the first unknown one), then their ISO codes compared. ExchangeWith's guard is stated in it; the registry simplification is the "Currency registry" line under Left out. |
| `HistoricalBank.DirectRateWins` | lib/money/bank/historical_bank.rb:68-69 | A stored direct rate is the answer, whatever its value, ahead of the inverse and the cross rate. |
| `HistoricalBank.InverseRate` | lib/money/bank/historical_bank.rb:70-74 | Without a direct rate, a stored reverse rate r gives 1/r, or non-finite when r is 0. |
| `HistoricalBank.BaseRateCases` | lib/money/bank/historical_bank.rb:77-84 | A code's USD base rate is USD_TO_X when stored, else 1/(X_TO_USD) when stored, else nil. |
| `HistoricalBank.CrossRateThroughUsd` | lib/money/bank/historical_bank.rb:75-88 | With neither a direct nor a reverse rate, the answer is the cross of the two base rates. |
| `HistoricalBank.Cross` | lib/money/bank/historical_bank.rb:85-87 | The cross is nil exactly when a base rate is nil. For finite operands with a non-zero divisor, quotient * from_base equals to_base exactly. |
| `HistoricalBank.TriangulatedRate` | lib/money/bank/historical_bank.rb:85-87 | With USD_TO_FROM = r1 (non-zero), USD_TO_TO = r2, and no direct or reverse rate, the answer is exactly r2/r1. |
| `HistoricalBank.NoRateWhenBaseMissing` | lib/money/bank/historical_bank.rb:85-90 | With neither a direct nor a reverse rate, the answer is nil if and only if one code has no USD rate in either direction. |
| `HistoricalBank.UnknownCodeRaises` | lib/money/bank/historical_bank.rb:61-69 | An unknown code raises UnknownCurrency on a day that has rates. On a day without rates the answer is nil and the codes are not examined. |
| `HistoricalBank.SameCodeCrossesToOne` | lib/money/bank/historical_bank.rb:67-90 | get_rate(d, A, A) has no special case. A stored A_TO_A is answered directly. Otherwise the answer is 1 through a non-zero USD_TO_A, else 1 through a non-zero A_TO_USD, non-finite when that stored rate is zero, and nil exactly when neither direction is stored. |
| `HistoricalBank.GetAfterSet` | lib/money/bank/historical_bank.rb:61-69 | After set_rate(d, A, B, r) for known A and B, get_rate(d, A, B) loads nothing and answers exactly r. |
| `HistoricalBank.InterpolationExample` | test/historical_bank_test.rb:24-31 | With USD->EUR 1.234 and GBP->USD 1.456 stored, EUR->USD is 1/1.234 and GBP->EUR is 1.456 * 1.234. |
| `HistoricalBank.WrittenKeepsOtherDays` | lib/money/bank/open_exchange_rates_loader.rb:27-31 | Loading a day leaves every other day's presence and rates unchanged. |
| `HistoricalBank.WrittenUnknownBase` | lib/money/bank/open_exchange_rates_loader.rb:25-31 | A document whose base currency is unknown writes nothing. |
| `HistoricalBank.WrittenSkipsUnknown` | lib/money/bank/open_exchange_rates_loader.rb:27-31 | An entry whose currency is unknown has no effect. Loading without it gives the same table. |
| `HistoricalBank.WrittenCreatesDay` | lib/money/bank/open_exchange_rates_loader.rb:27-31 | After loading, the day is present if and only if it was present before, or the base and at least one document currency are known. |
| `HistoricalBank.WrittenLastWins` | lib/money/bank/open_exchange_rates_loader.rb:27-31 | Take a known entry that no later known entry shares a key with. After loading, the day holds exactly that entry's rate under its key. |
| `HistoricalBank.DownloadedRateServed` | test/historical_bank_test.rb:53-60 | Take a day without rates whose document has base USD, named or by default, and rates EUR at r. get_rate(day, USD, EUR) answers r. |
| `HistoricalBank.Bank.ExchangeWith` | lib/money/bank/historical_bank.rb:136-144 | The input amount comes back unchanged exactly when both currencies have the same ISO code, and nothing is fetched or changed. An unknown code raises UnknownCurrency. Otherwise the day (today by default) is fetched only when the table has no entry for it, and then exactly once. A nil rate raises UnknownRate with the day and both codes, and any other rate is passed to the conversion. |
| `HistoricalBank.Bank.ExportRates` | lib/money/bank/historical_bank.rb:179-199 | Succeeds exactly for json, ruby and yaml, handing over the whole table. Any other format fails with UnknownRateFormat. Nothing changes. |
| `HistoricalBank.Bank.ImportRates` | lib/money/bank/historical_bank.rb:218-233 | For json, ruby and yaml the given table replaces the whole table; nothing is merged. Any other format fails with UnknownRateFormat before anything changes. |
| `HistoricalBank.Bank.ExportThenImport` | lib/money/bank/historical_bank.rb:179-233 | Handing the exported table back to import in the same format leaves the table unchanged. It succeeds exactly for a supported format. The deserialiser is taken to return what was serialised; see Left out. |
| `HistoricalBank.CrossAsWritten` | lib/money/bank/historical_bank.rb:86 | Line 86 as Ruby evaluates it: floored Integer division when both base rates are Integers, no result where Ruby raises ZeroDivisionError or yields a non-finite float. Its laws are IntegerBaseRatesTruncate, IntegerZeroBaseRaises and CrossIsExactQuotient. |
| `HistoricalBank.IntegerZeroBaseRaises` | lib/money/bank/historical_bank.rb:86 | As written, an Integer over an Integer zero base rate has no result (ZeroDivisionError), where the model's cross answers non-finite. |
| `HistoricalBank.IntegerBaseRatesTruncate` | lib/money/bank/historical_bank.rb:86 | As written, Integer base rates 3 and 2 give a cross rate of 1, which is not 3/2. The corrected division gives 1.5. |
| `HistoricalBank.CrossIsExactQuotient` | lib/money/bank/historical_bank.rb:86 | The corrected division is exact, and agrees with Ruby's whenever either operand is a Float. |
| `HistoricalMemory.RateKeyFor` | lib/money/rates_store/historical_memory.rb:59-61 | The key is the upcased from-code, then `_TO_`, then the upcased to-code. The codes are not ISO-normalised. |
| `HistoricalMemory.Stored` | lib/money/rates_store/historical_memory.rb:52-57 | A write with an unknown code returns the same store. A valid write adds the `date.to_s` day if missing and upserts exactly one key. All other days and keys keep their values. |
| `HistoricalMemory.MemoryStore.constructor` | lib/money/rates_store/historical_memory.rb:13-16 | The store starts empty. |
| `HistoricalMemory.MemoryStore.InternalSetRate` | lib/money/rates_store/historical_memory.rb:52-57 | The new store is `Stored` of the old one. |
| `HistoricalMemory.MemoryStore.AddRate` | lib/money/rates_store/historical_memory.rb:24-26 | The new store is `Stored` of the old one. |
| `HistoricalMemory.MemoryStore.GetRates` | lib/money/rates_store/historical_memory.rb:32-34 | Returns exactly the rates stored under `date.to_s`, or nil when that day was never written. The store is unchanged. |
| `HistoricalMemory.Yielded` | lib/money/rates_store/historical_memory.rb:43-44 | The tuple each_rate yields for one entry: the day text, the two pieces of the key split on `_TO_` (nil where there is no such piece), and the rate. Its laws are KeyRoundTrip, AddThenEach and SeparatorOverlap. |
| `HistoricalMemory.MemoryStore.EachRateOfDay` | lib/money/rates_store/historical_memory.rb:42-45 | The inner loop of each_rate visits every key of one stored day exactly once and only those. It yields each key's split tuple with that day and the key's rate. |
| `HistoricalMemory.MemoryStore.EachRate` | lib/money/rates_store/historical_memory.rb:39-48 | Visits every stored (day, key) entry exactly once and only those. Each visit yields that entry's split-key tuple. The store is unchanged. |
| `HistoricalMemory.OtherDaysUntouched` | lib/money/rates_store/historical_memory.rb:55 | A write for one day leaves every other day's bucket as it was, because distinct days have distinct texts. |
| `HistoricalMemory.LastAddWins` | lib/money/rates_store/historical_memory.rb:56 | Two writes for the same day and pair equal the second write alone. |
| `HistoricalMemory.KeyRoundTrip` | lib/money/rates_store/historical_memory.rb:43-60 | A key splits back into the two upcased codes when neither holds an underscore and the to-code is non-empty. |
| `HistoricalMemory.AddThenEach` | lib/money/rates_store/historical_memory.rb:39-60 | After a valid add_rate(from, to, r, d), the store holds an entry whose tuple is (d.to_s, FROM, TO, r). |
| `HistoricalMemory.SeparatorOverlap` | lib/money/rates_store/historical_memory.rb:43 | Excluding only `_TO_` from the codes is not enough: "A_TO" to "B" splits back as "A" and "TO_B". |
| `Dates.IsoDateInjective` | lib/money/rates_store/historical_memory.rb:33 | Distinct days have distinct `date.to_s` texts. |
| `OpenExchangeRatesLoader.BaseCurrency` | lib/money/bank/open_exchange_rates_loader.rb:25 | The base is the document's own base, or USD when it names none. |
| `OpenExchangeRatesLoader.RatesSource` | lib/money/bank/open_exchange_rates_loader.rb:17-22 | Today gives OER_URL and any other day gives HIST_URL + YYYY-MM-DD + ".json". "?app_id=id" is appended exactly when an id is configured. The result equals the fetcher's URL. |
| `OpenExchangeRatesLoader.UrlConstants` | lib/money/bank/open_exchange_rates_loader.rb:10-11 | HIST_URL and OER_URL are the fetcher's BASE_API_URL with a path after it. |
| `OpenExchangeRatesLoader.HistoricalSourceExample` | test/historical_bank_test.rb:54 | The source for 2009-09-09 is HIST_URL + "2009-09-09.json". |
| `OpenExchangeRatesFetcher.JoinCompactThree` | lib/open_exchange_rates_fetcher.rb:22 | `[a, b, c].compact.join` with `a` and `b` present is `a + b`, followed by `c` only when it is present. |
| `OpenExchangeRatesFetcher.Path` | lib/open_exchange_rates_fetcher.rb:14-18 | "/latest.json" for today, "/historical/YYYY-MM-DD.json" for any other day. Its laws are HistoricalUrlsDistinct (through IsoDateInjective) and the three URL examples. |
| `OpenExchangeRatesFetcher.Query` | lib/open_exchange_rates_fetcher.rb:20 | "?app_id=<id>" when an id is configured, nothing otherwise. Its laws are NoQueryWithoutAppId and AppIdAppended. |
| `OpenExchangeRatesFetcher.ComputeUrl` | lib/open_exchange_rates_fetcher.rb:13-23 | The URL is BASE_API_URL, then the path, then "?app_id=<id>" only when an id is configured. The path is "/latest.json" for today and "/historical/YYYY-MM-DD.json" for any other day. |
| `OpenExchangeRatesFetcher.UrlStartsWithBase` | lib/open_exchange_rates_fetcher.rb:22 | Every URL starts with BASE_API_URL. |
| `OpenExchangeRatesFetcher.NoQueryWithoutAppId` | lib/open_exchange_rates_fetcher.rb:20-22 | Without an app id the URL contains no '?'. |
| `OpenExchangeRatesFetcher.AppIdAppended` | lib/open_exchange_rates_fetcher.rb:20-22 | With an app id, the URL is the one without it followed by "?app_id=" and the id. |
| `OpenExchangeRatesFetcher.HistoricalUrlsDistinct` | lib/open_exchange_rates_fetcher.rb:16-17 | Two different days other than today never share a URL. |
| `OpenExchangeRatesFetcher.LatestUrlExample` | test/open_exchange_rates_fetcher_test.rb:11-15 | Today, without an app id, gives exactly https://openexchangerates.org/api/latest.json. |
| `OpenExchangeRatesFetcher.HistoricalUrlExample` | test/open_exchange_rates_fetcher_test.rb:17-21 | 2020-01-01 gives exactly https://openexchangerates.org/api/historical/2020-01-01.json. |
| `OpenExchangeRatesFetcher.AppIdUrlExample` | test/open_exchange_rates_fetcher_test.rb:23-28 | Today with app id abc123 gives exactly …/latest.json?app_id=abc123. |
| `HistoricalBankConfigure.BuildKey` | lib/money/time_machine_bank/historical_bank_configure.rb:27-30 | "YYYY-MM:from:to". Its laws are SameMonthSameKey, BuildKeyInjective, CodesKeptVerbatim and BuildKeyExample. |
| `HistoricalBankConfigure.SameMonthSameKey` | lib/money/time_machine_bank/historical_bank_configure.rb:27-30 | Days of the same year and month share a key, because the day is dropped. |
| `HistoricalBankConfigure.BuildKeyInjective` | lib/money/time_machine_bank/historical_bank_configure.rb:29 | Equal keys mean equal year, month, from-code and to-code, provided the from-codes hold no colon. |
| `HistoricalBankConfigure.CodesKeptVerbatim` | lib/money/time_machine_bank/historical_bank_configure.rb:29 | The codes are not upcased: usd/eur and USD/EUR get different keys. |
| `HistoricalBankConfigure.BuildKeyExample` | lib/money/time_machine_bank/historical_bank_configure.rb:29 | 2020-01-15, USD, EUR gives "2020-01:USD:EUR", with the month zero-padded and the year written in four digits. |

## Left out

- **Locking.** The `Mutex` in the bank and the store's `transaction` are left out. The model is single-threaded, so one `GetRate` call is one atomic step.
- **Network and parsing.** The HTTP fetch (`open`, `URI.open`, and `fetch_data` as a whole) and the JSON parse are replaced by `Env.fetch`. A failed fetch or parse becomes `FetchFailed`; Ruby raises whatever the library raised. A document without `rates` becomes `MalformedDocument`; Ruby raises `NoMethodError` there.
- **Serialisation.** JSON, Marshal and YAML, and the file write in `export_rates`, are left out. Export hands over the table and import receives an already-deserialised table. Which day keys a deserialiser produces is not modelled: after a JSON round trip Ruby gets text keys, not `Date` keys.
- **Conversion arithmetic.** `exchange_with` lines 145-158 (BigDecimal, `to_f`, the rounding block, `@rounding_method`, `to_s.to_i` truncation) are left out because they are float- and library-dependent.
- HistoricalBank.Bank.ExchangeWith: does not compute the converted amount; it returns the rate handed to the conversion arithmetic.
- HistoricalBank.Bank.ExportThenImport: assumes the deserialiser returns exactly the table that was serialised. That holds for Marshal (`:ruby`). It does not hold for `:json`: `JSON.dump` writes each `Date` day key as text and `JSON.load` gives it back as a `String`. So after a JSON round trip every `get_rate(date, …)` misses the day at line 63 and loads it again.
- HistoricalBank.Cross: sign and kind of non-finite results (+Infinity, -Infinity, NaN) are merged into `NonFinite`, because the real numbers have no signed zero.
- **Number types.** Stored rates are exact reals. Ruby's Integer/Float distinction appears only in the Findings row below, and float rounding is not modelled.
- **Currency registry.** `Money::Currency` is reduced to `Registry`. `Money::Bank::Base#same_currency?` comes from the money library and is not part of this model. `SameCurrency` compares the registry's ISO codes and raises for unknown codes, which is what it does there.
- **Case folding.** `String#upcase` is modelled on ASCII letters only.
- **Dates.** Years are non-negative, so BCE dates, which Ruby renders with a sign, are not covered. Months and days are range-checked, but a day number is not checked against its month's length. `Date.today` is a parameter.
- **Enumeration order.** `each_rate` visits every entry exactly once, but in an unspecified order. Ruby hashes iterate in insertion order.
- HistoricalMemory.MemoryStore.GetRates: returns a copy of the day's rates. Ruby returns the live inner Hash (`@rates[date.to_s]`), so a later `add_rate` for that day shows through it, and a caller can write into it past the currency check. That aliasing is not modelled.
- **Configuration and cache.** `HistoricalBankConfigure`'s `configure`, `config`, `store`, `load`, `adapter` and `cache` are left out. They are global configuration and Moneta cache I/O.

## Findings

| source | as written | input that shows it | evidently intended | confidence | as-written member | corrected member |
|---|---|---|---|---|---|---|
| lib/money/bank/historical_bank.rb:86 | `to_base_rate / from_base_rate` is Ruby's Integer division (floored) when both base rates are Integers. Integer rates come from set_rate with integer arguments or from integral JSON rates. | set_rate(d, "USD", "EUR", 2), set_rate(d, "USD", "GBP", 3), then get_rate(d, "EUR", "GBP") answers 1 | 1.5 (= 3/2): lines 73, 79 and 83 divide `1.0 / x` to force float division | medium, not executed | `HistoricalBank.CrossAsWritten` (shown by `HistoricalBank.IntegerBaseRatesTruncate`) | `HistoricalBank.Cross` (proved exact by `HistoricalBank.CrossIsExactQuotient` and `HistoricalBank.TriangulatedRate`) |
