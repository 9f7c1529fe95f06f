/**
  The part of the weather provider's forecast document that the pipeline
  reads. Each daily entry carries the date, the temperature range, the
  daytime wind speed and the daytime precipitation probability.
 */
module Weather {

  datatype DailyForecast = DailyForecast(
    date: string,
    minTemperature: real,
    maxTemperature: real,
    windSpeed: real,
    precipitationProbability: real)

  /** A forecast document: its `DailyForecasts` list, in the provider's order. */
  datatype Payload = Payload(dailyForecasts: seq<DailyForecast>)

  /** One city's name together with the forecast fetched for it. */
  datatype CityForecast = CityForecast(city: string, payload: Payload)
}
