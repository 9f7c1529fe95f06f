/**
  The forecast step of a route request: fetch every city of the route in
  order, keep the forecasts that came back, and write the table.

  As written, the table labels the i-th forecast that came back with the
  i-th name of the route (`ProcessWeatherData`). Once a city misses, every
  later forecast carries the name at an earlier route position. The corrected
  pipeline (`ProcessWeatherDataFixed`) keeps each forecast paired with the
  name it was fetched for.
 */
module Pipeline {
  import opened Wrappers
  import opened Filtering
  import opened Text
  import opened Weather
  import opened Provider
  import opened Route
  import opened ForecastCsv

  /**
    One loop step of the source: trim the route entry, then fetch its
    forecast. A forecast only comes back for a trimmed name the location
    search resolves. An entry without padding is fetched as it is, and
    `FetchIgnoresPadding` covers the padded ones.
   */
  function FetchOne(provider: Oracle, days: int, city: string): (data: Option<Payload>)
    ensures data.Some? ==> GetCityKey(provider, Strip(city)).Some?
    ensures data.Some? ==> GetCityKey(provider, Strip(city)).value != []
    ensures Stripped(city) ==> data == GetWeatherData(provider, city, days)
  {
    StripFixesStripped(city);
    GetWeatherData(provider, Strip(city), days)
  }

  /** Whitespace around a route entry never changes what is fetched for it. */
  lemma {:induction false} FetchIgnoresPadding(provider: Oracle, days: int, pre: string, core: string, post: string)
    requires AllSpace(pre) && AllSpace(post) && Stripped(core)
    ensures FetchOne(provider, days, pre + core + post) == FetchOne(provider, days, core)
  {
    StripPadded(pre, core, post);
    StripPadded([], core, []);
    assert [] + core + [] == core;
  }

  /** The loop step as a value, for the filter-map over the route. */
  function FetchCity(provider: Oracle, days: int): string -> Option<Payload> {
    (city: string) => FetchOne(provider, days, city)
  }

  /** Any fetch step, keeping the route entry next to the forecast it fetched. */
  function Tagged(fetch: string -> Option<Payload>): string -> Option<CityForecast> {
    (city: string) =>
      match fetch(city)
      case Some(payload) => Some(CityForecast(city, payload))
      case None => None
  }

  /**
    The loop over the route, for any fetch step: the forecasts that came
    back, in route order, never more of them than route entries.
   */
  method CollectForecasts(fetch: string -> Option<Payload>, cityNames: seq<string>)
    returns (weatherDataList: seq<Payload>)
    ensures weatherDataList == FilterMap(cityNames, fetch)
    ensures |weatherDataList| + Misses(cityNames, fetch) == |cityNames|
  {
    weatherDataList := [];
    var i := 0;
    while i < |cityNames|
      invariant i <= |cityNames|
      invariant weatherDataList == FilterMap(cityNames[..i], fetch)
    {
      var cityWeatherData := fetch(cityNames[i]);
      FilterMapPrefix(cityNames, i, fetch);
      if cityWeatherData.Some? {
        weatherDataList := weatherDataList + [cityWeatherData.value];
      }
      i := i + 1;
    }
    assert cityNames[..i] == cityNames;
  }

  /**
    `process_weather_data` as written. The route is rebuilt from the
    waypoints, the forecasts are collected, and the writer never hits its
    index error: there are never more forecasts than route names.
   */
  method ProcessWeatherData(provider: Oracle, startCity: string, endCity: string,
                            intermediateCities: seq<string>, days: int)
    returns (weatherDataList: seq<Payload>, cityNames: seq<string>, out: CsvOutcome)
    ensures cityNames == BuildRoute(startCity, endCity, intermediateCities)
    ensures weatherDataList == FilterMap(cityNames, FetchCity(provider, days))
    ensures |weatherDataList| <= |cityNames|
    ensures out.Saved?
    ensures out.table.header == Header
    ensures out.table.rows == Rows(Positional(weatherDataList, cityNames))
  {
    cityNames := BuildRoute(startCity, endCity, intermediateCities);
    weatherDataList := CollectForecasts(FetchCity(provider, days), cityNames);
    out := SaveWeatherDataToCsv(weatherDataList, cityNames);
  }

  /**
    The corrected step: the same route, the same fetches, but every row is
    labelled with the route entry its forecast was fetched for.
   */
  function ProcessWeatherDataFixed(provider: Oracle, startCity: string, endCity: string,
                                   intermediateCities: seq<string>, days: int): (table: Table)
    ensures table.header == Header
    ensures var route := BuildRoute(startCity, endCity, intermediateCities);
      |table.rows| == TotalDays(FilterMap(route, Tagged(FetchCity(provider, days))))
  {
    var route := BuildRoute(startCity, endCity, intermediateCities);
    Table(Header, Rows(FilterMap(route, Tagged(FetchCity(provider, days)))))
  }

  /**
    The rows of the tagged table, for any fetch step, in terms of the
    untagged loop: day `d` of the k-th forecast that came back is labelled
    with the route entry it was fetched for.
   */
  lemma {:induction false} TaggedRowsFetched(fetch: string -> Option<Payload>, route: seq<string>, k: nat, d: nat)
    requires k < |FilterMap(route, fetch)|
    requires d < |FilterMap(route, fetch)[k].dailyForecasts|
    ensures var e := FilterMap(route, Tagged(fetch));
      var j := Kept(route, fetch)[k];
      && |e| == |FilterMap(route, fetch)|
      && j < |route|
      && fetch(route[j]) == Some(FilterMap(route, fetch)[k])
      && TotalDays(e[..k]) + d < |Rows(e)|
      && Rows(e)[TotalDays(e[..k]) + d] == MakeRow(route[j], FilterMap(route, fetch)[k].dailyForecasts[d])
  {
    TaggedEntry(fetch, route, k);
    KeptAgree(route, fetch, Tagged(fetch));
    FixedRowsLabelled(fetch, route, k, d);
  }

  /**
    The corrected table row by row: day `d` of the k-th forecast that came
    back is labelled with the route entry at the k-th surviving position,
    the entry that forecast was fetched for. The as-written table labels
    the same row `route[k]` instead (`AsWrittenLabel`).
   */
  lemma {:induction false} FixedTableLabelled(provider: Oracle, startCity: string, endCity: string,
                                              intermediateCities: seq<string>, days: int, k: nat, d: nat)
    ensures var route := BuildRoute(startCity, endCity, intermediateCities);
      var fetched := FilterMap(route, FetchCity(provider, days));
      k < |fetched| && d < |fetched[k].dailyForecasts| ==>
        var j := Kept(route, FetchCity(provider, days))[k];
        var rows := ProcessWeatherDataFixed(provider, startCity, endCity, intermediateCities, days).rows;
        var tagged := FilterMap(route, Tagged(FetchCity(provider, days)));
        && |tagged| == |fetched|
        && j < |route|
        && FetchOne(provider, days, route[j]) == Some(fetched[k])
        && TotalDays(tagged[..k]) + d < |rows|
        && rows[TotalDays(tagged[..k]) + d] == MakeRow(route[j], fetched[k].dailyForecasts[d])
  {
    var route := BuildRoute(startCity, endCity, intermediateCities);
    var fetched := FilterMap(route, FetchCity(provider, days));
    if k < |fetched| && d < |fetched[k].dailyForecasts| {
      TaggedRowsFetched(FetchCity(provider, days), route, k, d);
    }
  }

  /**
    With the tagging step the k-th entry is the route entry at the k-th
    surviving position, together with exactly the forecast the untagged
    loop collected k-th.
   */
  lemma {:induction false} TaggedEntry(fetch: string -> Option<Payload>, route: seq<string>, k: nat)
    requires k < |FilterMap(route, fetch)|
    ensures |FilterMap(route, Tagged(fetch))| == |FilterMap(route, fetch)|
    ensures var j := Kept(route, fetch)[k];
      && j < |route|
      && fetch(route[j]) == Some(FilterMap(route, fetch)[k])
      && FilterMap(route, Tagged(fetch))[k] == CityForecast(route[j], FilterMap(route, fetch)[k])
  {
    var g := Tagged(fetch);
    assert forall i | 0 <= i < |route| :: fetch(route[i]).Some? <==> g(route[i]).Some?;
    KeptAgree(route, fetch, g);
    KeptYields(route, fetch, k);
    KeptYields(route, g, k);
  }

  /**
    Every row of the corrected table belongs to the city it was fetched
    for: day `d` of the k-th entry sits right after the days of the entries
    before it, is labelled with the route entry `route[j]` at the k-th
    surviving position, and is built from day `d` of the forecast fetched
    for `route[j]`.
   */
  lemma {:induction false} FixedRowsLabelled(fetch: string -> Option<Payload>, route: seq<string>, k: nat, d: nat)
    requires k < |FilterMap(route, Tagged(fetch))|
    requires d < |FilterMap(route, Tagged(fetch))[k].payload.dailyForecasts|
    ensures fetch(route[Kept(route, Tagged(fetch))[k]]) == Some(FilterMap(route, Tagged(fetch))[k].payload)
    ensures TotalDays(FilterMap(route, Tagged(fetch))[..k]) + d < |Rows(FilterMap(route, Tagged(fetch)))|
    ensures Rows(FilterMap(route, Tagged(fetch)))[TotalDays(FilterMap(route, Tagged(fetch))[..k]) + d]
            == MakeRow(route[Kept(route, Tagged(fetch))[k]],
                       FilterMap(route, Tagged(fetch))[k].payload.dailyForecasts[d])
  {
    var entries := FilterMap(route, Tagged(fetch));
    var j := Kept(route, Tagged(fetch))[k];
    KeptYields(route, Tagged(fetch), k);
    assert entries[k] == CityForecast(route[j], entries[k].payload);
    RowOfEntry(entries, k, route[j], entries[k].payload, d);
  }

  /**
    The as-written label of the k-th forecast is `route[k]`, while the
    forecast was fetched for `route[j]` with `j` the k-th surviving
    position. `j` is `k` plus the misses before it, so the label is taken
    from the position the forecast was fetched for exactly when no earlier
    city missed (a route that repeats a name can still get the right text
    from the wrong position); the names at the end of the route that
    outnumber the forecasts are never used.
   */
  lemma {:induction false} AsWrittenLabel(fetch: string -> Option<Payload>, route: seq<string>, k: nat)
    requires k < |FilterMap(route, fetch)|
    ensures Positional(FilterMap(route, fetch), route)[k].city == route[k]
    ensures k < |route| - Misses(route, fetch)
    ensures var j := Kept(route, fetch)[k];
      && j == k + Misses(route[..j], fetch)
      && (j == k <==> forall i | 0 <= i < j :: fetch(route[i]).Some?)
      && fetch(route[j]) == Some(FilterMap(route, fetch)[k])
  {
    KeptYields(route, fetch, k);
    KeptShift(route, fetch, k);
    NoEarlierMiss(route, fetch, k);
  }

  /** When no city of the route misses, the as-written labelling is the correct one. */
  lemma {:induction false} NoMissLabelsCorrect(fetch: string -> Option<Payload>, route: seq<string>)
    requires forall i | 0 <= i < |route| :: fetch(route[i]).Some?
    ensures |FilterMap(route, fetch)| == |route|
    ensures Positional(FilterMap(route, fetch), route) == FilterMap(route, Tagged(fetch))
  {
    AllPresent(route, fetch);
    assert forall i | 0 <= i < |route| :: Tagged(fetch)(route[i]).Some?;
    AllPresent(route, Tagged(fetch));
    var a := Positional(FilterMap(route, fetch), route);
    var b := FilterMap(route, Tagged(fetch));
    forall k | 0 <= k < |route|
      ensures a[k] == b[k]
    {
      TaggedEntry(fetch, route, k);
    }
  }

  /**
    A one-day forecast for the example cities, told apart by the minimum
    temperature: 1 for "A", 2 for "B", 3 for any other name.
   */
  function OneDay(city: string): Payload {
    var low := if city == "A" then 1.0 else if city == "B" then 2.0 else 3.0;
    Payload([DailyForecast("2024-06-01", low, 20.0, 5.0, 10.0)])
  }

  /** A fetch step on which only the city "B" misses. */
  function MissOnB(city: string): Option<Payload> {
    if city == "B" then None else Some(OneDay(city))
  }

  /**
    The misalignment on a concrete route: with "B" missing, the forecast
    fetched for "C" comes second and the source labels it "B", while the
    corrected pairing labels it "C"; the name "C" is never used.
   */
  lemma MislabelledAfterMiss()
    ensures OneDay("B") != OneDay("C")
    ensures FilterMap(["A", "B", "C"], MissOnB) == [OneDay("A"), OneDay("C")]
    ensures Positional(FilterMap(["A", "B", "C"], MissOnB), ["A", "B", "C"])
            == [CityForecast("A", OneDay("A")), CityForecast("B", OneDay("C"))]
    ensures FilterMap(["A", "B", "C"], Tagged(MissOnB))
            == [CityForecast("A", OneDay("A")), CityForecast("C", OneDay("C"))]
  {
    var route: seq<string> := ["A", "B", "C"];
    assert route[..2] == ["A", "B"];
    assert route[..2][..1] == ["A"];
    assert route[..2][..1][..0] == [];
  }
}
