/** Money::RatesStore::HistoricalMemory: an in-memory store of rates per day,
    keyed by the day's text (Date#to_s) and then by "FROM_TO_TO". */
module HistoricalMemory {
  import opened Wrappers
  import opened Text
  import opened Dates
  import opened Currency

  const SERIALIZER_SEPARATOR := "_TO_"

  /** The store's @rates: day text -> ("FROM_TO_TO" -> rate). */
  type Store = map<string, map<string, real>>

  /** rate_key_for: the two codes as given, joined and upcased. */
  function RateKeyFor(from: string, to: string): (key: string)
    ensures key == Upcase(from) + SERIALIZER_SEPARATOR + Upcase(to)
  {
    UpcaseAppend(from, SERIALIZER_SEPARATOR + to);
    UpcaseAppend(SERIALIZER_SEPARATOR, to);
    UpcaseIdentity(SERIALIZER_SEPARATOR);
    assert from + SERIALIZER_SEPARATOR + to == from + (SERIALIZER_SEPARATOR + to);
    Upcase(from + SERIALIZER_SEPARATOR + to)
  }

  /** A day's rates, or none. */
  function DayRates(s: Store, day: string): map<string, real> {
    if day in s then s[day] else map[]
  }

  /** internal_set_rate: with both codes known, the rate is upserted under
      date.to_s and the pair's key; otherwise the store is unchanged. */
  function Stored(reg: Registry, s: Store, from: string, to: string, rate: real, date: Date): (r: Store)
    ensures !(reg.Known(from) && reg.Known(to)) ==> r == s
    ensures reg.Known(from) && reg.Known(to) ==>
      && r.Keys == s.Keys + {IsoDate(date)}
      && (forall day :: day in s && day != IsoDate(date) ==> r[day] == s[day])
      && r[IsoDate(date)].Keys == DayRates(s, IsoDate(date)).Keys + {RateKeyFor(from, to)}
      && r[IsoDate(date)][RateKeyFor(from, to)] == rate
      && (forall k :: k in DayRates(s, IsoDate(date)) && k != RateKeyFor(from, to) ==>
            r[IsoDate(date)][k] == DayRates(s, IsoDate(date))[k])
  {
    if reg.Known(from) && reg.Known(to) then
      s[IsoDate(date) := DayRates(s, IsoDate(date))[RateKeyFor(from, to) := rate]]
    else
      s
  }

  /** One tuple each_rate yields: the day text, the key split on the
      separator (nil where the split has no such piece), and the rate. */
  datatype RateTuple = RateTuple(date: string, from: Option<string>, to: Option<string>, rate: real)

  /** `from, to = key.split(SERIALIZER_SEPARATOR)`, then the yielded tuple. */
  function Yielded(day: string, key: string, rate: real): RateTuple {
    var parts := RubySplit(key, SERIALIZER_SEPARATOR);
    RateTuple(day,
      if |parts| > 0 then Some(parts[0]) else None,
      if |parts| > 1 then Some(parts[1]) else None,
      rate)
  }

  /** Every (day, key) entry of a store. */
  ghost predicate IsEntry(s: Store, e: (string, string)) {
    e.0 in s && e.1 in s[e.0]
  }

  class MemoryStore {
    const registry: Registry
    var rates: Store

    /** initialize: an empty store. */
    constructor (registry: Registry)
      ensures this.registry == registry && rates == map[]
    {
      this.registry := registry;
      rates := map[];
    }

    /** internal_set_rate: the write rule, without the lock. */
    method InternalSetRate(from: string, to: string, rate: real, date: Date)
      modifies this
      ensures rates == Stored(registry, old(rates), from, to, rate, date)
    {
      if !(registry.Known(from) && registry.Known(to)) {
        return;
      }
      var day := IsoDate(date);
      var dateRates := if day in rates then rates[day] else map[];
      rates := rates[day := dateRates[RateKeyFor(from, to) := rate]];
    }

    /** add_rate: internal_set_rate inside a transaction. */
    method AddRate(from: string, to: string, rate: real, date: Date)
      modifies this
      ensures rates == Stored(registry, old(rates), from, to, rate, date)
    {
      InternalSetRate(from, to, rate, date);
    }

    /** get_rates: the rates stored under date.to_s, or nil when that day was
      never written. */
    method GetRates(date: Date) returns (dayRates: Option<map<string, real>>)
      ensures dayRates.Some? <==> IsoDate(date) in rates
      ensures dayRates.Some? ==> dayRates.value == rates[IsoDate(date)]
    {
      var day := IsoDate(date);
      if day in rates {
        dayRates := Some(rates[day]);
      } else {
        dayRates := None;
      }
    }

    /** The inner loop of each_rate: every key of one day, once each. */
    method EachRateOfDay(day: string) returns (visited: seq<(string, string)>, tuples: seq<RateTuple>)
      requires day in rates
      ensures |tuples| == |visited|
      ensures forall i :: 0 <= i < |visited| ==>
        visited[i].0 == day && visited[i].1 in rates[day]
        && tuples[i] == Yielded(day, visited[i].1, rates[day][visited[i].1])
      ensures forall key :: key in rates[day] ==> (day, key) in visited
      ensures forall i, j :: 0 <= i < j < |visited| ==> visited[i] != visited[j]
    {
      visited, tuples := [], [];
      var dateRates := rates[day];
      var keys := dateRates.Keys;
      while keys != {}
        invariant keys <= dateRates.Keys && |tuples| == |visited|
        invariant forall i :: 0 <= i < |visited| ==>
          visited[i].0 == day && visited[i].1 in dateRates && visited[i].1 !in keys
          && tuples[i] == Yielded(day, visited[i].1, dateRates[visited[i].1])
        invariant forall key :: key in dateRates && key !in keys ==> (day, key) in visited
        invariant forall i, j :: 0 <= i < j < |visited| ==> visited[i] != visited[j]
        decreases keys
      {
        var key :| key in keys;
        visited := visited + [(day, key)];
        tuples := tuples + [Yielded(day, key, dateRates[key])];
        keys := keys - {key};
      }
    }

    /** each_rate: visits every (day, key) entry exactly once, in some order,
      and yields its tuple. `visited` lists the entries in the order their
      tuples appear in `tuples`. */
    method EachRate() returns (visited: seq<(string, string)>, tuples: seq<RateTuple>)
      ensures |tuples| == |visited|
      ensures forall i :: 0 <= i < |visited| ==>
        IsEntry(rates, visited[i]) && tuples[i] == Yielded(visited[i].0, visited[i].1, rates[visited[i].0][visited[i].1])
      ensures forall day, key :: day in rates && key in rates[day] ==> (day, key) in visited
      ensures forall i, j :: 0 <= i < j < |visited| ==> visited[i] != visited[j]
    {
      visited, tuples := [], [];
      var days := rates.Keys;
      while days != {}
        invariant days <= rates.Keys && |tuples| == |visited|
        invariant forall i :: 0 <= i < |visited| ==>
          IsEntry(rates, visited[i]) && visited[i].0 !in days
          && tuples[i] == Yielded(visited[i].0, visited[i].1, rates[visited[i].0][visited[i].1])
        invariant forall day, key :: day in rates && day !in days && key in rates[day] ==> (day, key) in visited
        invariant forall i, j :: 0 <= i < j < |visited| ==> visited[i] != visited[j]
        decreases days
      {
        var day :| day in days;
        var dayVisited, dayTuples := EachRateOfDay(day);
        ghost var prior := visited;
        visited, tuples := visited + dayVisited, tuples + dayTuples;
        days := days - {day};
        forall i | 0 <= i < |visited|
          ensures IsEntry(rates, visited[i]) && visited[i].0 !in days
          ensures tuples[i] == Yielded(visited[i].0, visited[i].1, rates[visited[i].0][visited[i].1])
        {
          if |prior| <= i {
            assert visited[i] == dayVisited[i - |prior|] && tuples[i] == dayTuples[i - |prior|];
          } else {
            assert visited[i] == prior[i];
          }
        }
        forall d, key | d in rates && d !in days && key in rates[d]
          ensures (d, key) in visited
        {
          if d == day {
            assert (d, key) in dayVisited;
          } else {
            assert (d, key) in prior;
          }
        }
        forall i, j | 0 <= i < j < |visited|
          ensures visited[i] != visited[j]
        {
          if i < |prior| <= j {
            assert visited[i].0 != day && visited[j] == dayVisited[j - |prior|];
          } else if |prior| <= i {
            assert visited[i] == dayVisited[i - |prior|] && visited[j] == dayVisited[j - |prior|];
          }
        }
      }
    }
  }

  // ------------------------------------------------------------------ laws

  /** A write for one day never touches another day's rates. */
  lemma OtherDaysUntouched(reg: Registry, s: Store, from: string, to: string, rate: real, date: Date, other: Date)
    requires other != date
    ensures var r := Stored(reg, s, from, to, rate, date);
      (IsoDate(other) in r <==> IsoDate(other) in s)
      && (IsoDate(other) in s ==> r[IsoDate(other)] == s[IsoDate(other)])
  {
    if IsoDate(other) == IsoDate(date) {
      IsoDateInjective(other, date);
    }
  }

  /** Two writes for the same day and pair keep only the later rate. */
  lemma LastAddWins(reg: Registry, s: Store, from: string, to: string, r1: real, r2: real, date: Date)
    ensures Stored(reg, Stored(reg, s, from, to, r1, date), from, to, r2, date)
      == Stored(reg, s, from, to, r2, date)
  {
    if reg.Known(from) && reg.Known(to) {
      var day, key := IsoDate(date), RateKeyFor(from, to);
      var once := DayRates(s, day)[key := r1];
      assert DayRates(Stored(reg, s, from, to, r1, date), day) == once;
      assert once[key := r2] == DayRates(s, day)[key := r2];
    }
  }

  /** Keys split back into the codes they were built from, upcased, when the
      codes hold no underscore and the to-code is not empty. */
  lemma {:induction false} KeyRoundTrip(from: string, to: string)
    requires '_' !in from && '_' !in to && to != ""
    ensures RubySplit(RateKeyFor(from, to), SERIALIZER_SEPARATOR) == [Upcase(from), Upcase(to)]
  {
    UpcaseKeepsChar(from, '_');
    UpcaseKeepsChar(to, '_');
    SplitJoinRoundTrip(Upcase(from), SERIALIZER_SEPARATOR, Upcase(to));
  }

  /** After a valid add_rate(from, to, rate, date), the store holds the entry
      whose yielded tuple is (date.to_s, FROM, TO, rate). */
  lemma AddThenEach(reg: Registry, s: Store, from: string, to: string, rate: real, date: Date)
    requires reg.Known(from) && reg.Known(to)
    requires '_' !in from && '_' !in to && to != ""
    ensures var r := Stored(reg, s, from, to, rate, date);
      IsEntry(r, (IsoDate(date), RateKeyFor(from, to)))
      && Yielded(IsoDate(date), RateKeyFor(from, to), r[IsoDate(date)][RateKeyFor(from, to)])
         == RateTuple(IsoDate(date), Some(Upcase(from)), Some(Upcase(to)), rate)
  {
    KeyRoundTrip(from, to);
  }

  /** Why underscores are excluded: a from-code ending in "_TO" moves the
      split point, so "A_TO" to "B" comes back as "A" and "TO_B". */
  lemma SeparatorOverlap()
    ensures RubySplit(RateKeyFor("A_TO", "B"), SERIALIZER_SEPARATOR) == ["A", "TO_B"]
  {
    var key := RateKeyFor("A_TO", "B");
    UpcaseIdentity("A_TO");
    UpcaseIdentity("B");
    assert key == "A" + SERIALIZER_SEPARATOR + "TO_B";
    SplitOnAfterFirst("A", SERIALIZER_SEPARATOR, "TO_B");
    assert SplitOn("O_B", SERIALIZER_SEPARATOR) == ["O_B"];
    assert "TO_B"[..4] != SERIALIZER_SEPARATOR;
    assert "TO_B"[1..] == "O_B" && "TO_B"[0] == 'T' && ['T'] + "O_B" == "TO_B";
    assert SplitOn("TO_B", SERIALIZER_SEPARATOR) == ["TO_B"];
    assert SplitOn(key, SERIALIZER_SEPARATOR) == ["A", "TO_B"];
  }
}
