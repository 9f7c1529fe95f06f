/**
  The two provider lookups, with the network replaced by an oracle: the
  provider is a pair of total functions from a request to a response
  (status code and decoded body). What is modelled is the decision each
  lookup takes on the response.
 */
module Provider {
  import opened Wrappers
  import opened Weather

  /** A search hit: only its `Key` is read. */
  datatype Location = Location(key: string)

  /** Location search: the free-text city name and the result language. */
  datatype SearchRequest = SearchRequest(query: string, language: string)

  /** N-day forecast: the horizon, the location key and the details flag. */
  datatype ForecastRequest = ForecastRequest(days: int, key: string, details: bool)

  datatype Response<T> = Response(status: int, body: T)

  datatype Oracle = Oracle(
    search: SearchRequest -> Response<seq<Location>>,
    forecast: ForecastRequest -> Response<Payload>)

  const StatusOk: int := 200
  const Language: string := "ru-ru"

  function SearchFor(city: string): SearchRequest {
    SearchRequest(city, Language)
  }

  function ForecastFor(days: int, key: string): ForecastRequest {
    ForecastRequest(days, key, true)
  }

  /**
    `get_city_key`: the first hit's key when the search answered 200 with
    at least one hit; a miss otherwise. Later hits are never looked at.
   */
  function GetCityKey(provider: Oracle, city: string): (key: Option<string>)
    ensures var r := provider.search(SearchFor(city));
      && (key.Some? <==> r.status == StatusOk && |r.body| > 0)
      && (key.Some? ==> key.value == r.body[0].key)
  {
    var response := provider.search(SearchFor(city));
    if response.status == StatusOk && response.body != [] then Some(response.body[0].key)
    else None
  }

  /**
    `get_weather_data`: resolve the city, then fetch its forecast. A missing
    key, an empty key (falsy in the source's `if city_key`) or a forecast
    status other than 200 is a miss.
   */
  function GetWeatherData(provider: Oracle, city: string, days: int): (data: Option<Payload>)
    ensures GetCityKey(provider, city).None? ==> data.None?
    ensures GetCityKey(provider, city) == Some([]) ==> data.None?
    ensures data.Some? <==>
      && GetCityKey(provider, city).Some?
      && GetCityKey(provider, city).value != []
      && provider.forecast(ForecastFor(days, GetCityKey(provider, city).value)).status == StatusOk
    ensures data.Some? ==>
      data.value == provider.forecast(ForecastFor(days, GetCityKey(provider, city).value)).body
  {
    match GetCityKey(provider, city)
    case None => None
    case Some(key) =>
      if key == [] then None
      else
        var response := provider.forecast(ForecastFor(days, key));
        if response.status == StatusOk then Some(response.body) else None
  }

  /**
    First hit wins: two searches that agree on the status and on the first
    hit resolve to the same key, whatever else they list.
   */
  lemma {:induction false} FirstHitWins(provider: Oracle, other: Oracle, city: string)
    requires provider.search(SearchFor(city)).status == other.search(SearchFor(city)).status
    requires |provider.search(SearchFor(city)).body| > 0 && |other.search(SearchFor(city)).body| > 0
    requires provider.search(SearchFor(city)).body[0] == other.search(SearchFor(city)).body[0]
    ensures GetCityKey(provider, city) == GetCityKey(other, city)
  {
  }
}
