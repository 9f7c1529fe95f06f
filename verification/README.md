# Route weather forecast: a Dafny model of the forecast step

The modelled program is a small web application. A user types a start city,
an end city and a comma-separated list of waypoints. The application looks
up every city of the route at a weather provider and fetches an N-day
forecast for it. It then writes one CSV row per (city, forecast day) with
the mean temperature, the wind speed, the precipitation probability and a
travel label, "благоприятные" (favourable) or "неблагоприятные"
(unfavourable).

This project models the pure part of that flow in `app.py`:

- `classifier.dfy` (module `Classifier`) models `check_bad_weather`, its two
  label texts and the dashboard's colour map for them.
- `text.dfy` (module `Text`) models Python's `str.strip()` and
  `str.split(',')`.
- `route.dfy` (module `Route`) models the waypoint clean-up and the route
  `[start] + waypoints + [end]`.
- `provider.dfy` (module `Provider`) models `get_city_key` and
  `get_weather_data`. The network is replaced by an oracle: a pair of total
  functions from a request record to a response (status code and decoded
  body).
- `weather.dfy` (module `Weather`) holds the forecast document fields the
  program reads.
- `forecast_csv.dfy` (module `ForecastCsv`) models the row builder of
  `save_weather_data_to_csv`. The file is a header plus a sequence of rows.
- `filtering.dfy` (module `Filtering`) defines the generic filter-map. It
  also defines `Kept`, the input positions that survived. Both the waypoint
  clean-up and the fetch loop have this shape.
- `pipeline.dfy` (module `Pipeline`) models the loop of
  `process_weather_data` and the labelling defect described under Findings.
  It also holds a corrected version.

Numbers are Dafny `real`s. Strings are `seq<char>`. The favourability outcome
is a two-valued datatype, and `Classifier.Label` gives the text that is
written for each value.

## Model

| member | source | states |
|---|---|---|
| Classifier.CheckBadWeather | app.py:71-78 | The day is unfavourable exactly when temperature < 0, temperature > 35, wind > 50 or precipitation > 70. All comparisons are strict, so values exactly on a threshold are favourable. |
| Classifier.BoundaryValues | app.py:71-78 | 0, 35, 50 and 70 give favourable. -0.1, 35.1, 50.1 and 70.1 give unfavourable. |
| Classifier.Label | app.py:73-78 | The Condition column holds "неблагоприятные" exactly for an unfavourable day and "благоприятные" exactly for a favourable one, so the two outcomes never share a text. |
| Classifier.ConditionColour | app.py:164-167 | The dashboard's colour map gives a colour exactly to the two label texts. |
| Classifier.EveryLabelColoured | app.py:73-78 | Every label text the classifier can write has a colour, and the colour is red exactly on adverse days. |
| Text.Strip | app.py:105 | `strip()` never lengthens the text. Its result has no whitespace at either end, and it is empty exactly when the input is all whitespace. |
| Text.StripPadded | app.py:105 | `strip()` of whitespace + stripped core + whitespace is exactly the core. |
| Text.StripSplits | app.py:105 | Every string is its stripped form with only whitespace on either side. |
| Text.StripKeepsCharacters | app.py:105 | Stripping adds no character. |
| Text.StripIdempotent | app.py:88 | Stripping an already stripped name changes nothing. |
| Text.StripFixesStripped | app.py:88 | A name with no whitespace at either end is left unchanged by `strip()`. |
| Text.Split | app.py:104 | `split(',')` yields at least one piece, and no piece contains the separator. |
| Text.JoinSplit | app.py:104 | Joining the pieces with the separator gives the original text back. |
| Text.SplitJoin | app.py:104 | Splitting joined separator-free pieces gives the same pieces back. |
| Route.NonBlank | app.py:105 | A piece is dropped exactly when it is all whitespace. Otherwise it contributes its trimmed text. |
| Route.CleanWaypoints | app.py:105 | Kept waypoints are non-empty and trimmed. Their number is the number of pieces minus the blank pieces. |
| Route.CleanWaypointsAt | app.py:105 | There is one entry per kept (non-blank) position, and entry k is the trimmed text of the piece at the k-th kept position. |
| Route.CleanWaypointsInOrder | app.py:105 | The k-th kept waypoint is the trimmed text of the k-th non-blank piece. |
| Route.CleanWaypointsComplete | app.py:105 | No non-blank piece is dropped. |
| Route.CleanWaypointsFixes | app.py:82 | Waypoints that are already non-empty and trimmed pass through the clean-up unchanged. |
| Route.CleanWaypointsIdempotent | app.py:82 | Cleaning already cleaned waypoints a second time is a no-op. |
| Route.ParseWaypoints | app.py:104-105 | The waypoint field gives one name per non-blank comma piece: the k-th name is the trimmed text of the k-th non-blank piece, in input order. Every name is non-empty, trimmed and free of commas. |
| Route.BuildRoute | app.py:82 | The route has 2 + (number of non-blank waypoints) entries. It starts with the start city and ends with the end city, both verbatim. Entry k + 1 is the trimmed text of the k-th non-blank waypoint, in input order, so every entry between the ends is trimmed and non-empty. |
| Route.BuildRouteComplete | app.py:82 | Every non-blank waypoint appears in the route, trimmed, at the position of its rank among the non-blank waypoints. |
| Route.FormRouteMatchesRebuilt | app.py:104-116 | For cleaned waypoints, which `ParseWaypoints` always delivers, the list the form handler builds equals the route the forecast step rebuilds from them. |
| Provider.GetCityKey | app.py:49-57 | A key is returned exactly when the search answers 200 with a non-empty hit list, and it is the first hit's key. |
| Provider.FirstHitWins | app.py:55-56 | Searches that agree on the status and the first hit resolve to the same key, whatever the later hits are. |
| Provider.GetWeatherData | app.py:60-68 | A missing key, an empty key or a forecast status other than 200 gives no data. Otherwise the result is the forecast body. |
| Filtering.FilterMap | app.py:87-90 | Output length plus number of misses equals input length, so there are never more results than inputs. |
| Filtering.NoMisses | app.py:89-90 | The miss count is zero exactly when every step succeeds. |
| Filtering.KeptYields | app.py:87-90 | The k-th result is the step's result on input position `Kept[k]`. |
| Filtering.KeptComplete | app.py:87-90 | Every input position whose step succeeds is kept. |
| Filtering.KeptIncreasing | app.py:87-90 | Kept positions strictly increase, so results stay in input order. |
| Filtering.KeptShift | app.py:87-90 | The k-th survivor sits at input position k plus the number of misses before it. |
| Filtering.NoEarlierMiss | app.py:87-90 | The k-th survivor is at position k exactly when nothing before it missed. |
| ForecastCsv.MakeRow | app.py:29-45 | A row keeps the city and the date. Its average temperature is the mean of the day's min and max, so it lies between them when min ≤ max. Wind and precipitation are copied unchanged, and the condition is the classifier applied to the row's own values. |
| ForecastCsv.Positional | app.py:27-39 | The payload at position i is labelled `names[i]`, whatever city it was fetched for. There is one entry per payload. |
| ForecastCsv.Rows | app.py:27-28 | There is one row per forecast day over all entries. |
| ForecastCsv.RowsConsistent | app.py:30-45 | Every row's condition is the classifier applied to that row's own three values. |
| ForecastCsv.RowAt | app.py:27-28 | Day j of entry i is the row right after all days of entries 0..i-1. It is built from that city and that day, so rows follow payload order and then day order. |
| ForecastCsv.WriteDays | app.py:28-46 | The inner loop writes exactly one row per day of the forecast, in day order. |
| ForecastCsv.SaveWeatherDataToCsv | app.py:19-46 | The header comes first. An index error happens exactly when a payload past the end of the name list has a day to write. It is raised at the first such payload, where the first row reads the missing name. Otherwise the rows are those of payload i labelled `city_names[i]`, and an empty payload list gives the header alone. |
| Pipeline.FetchOne | app.py:88 | A forecast comes back for a route entry only when the location search resolves its trimmed text to a non-empty key. An entry without padding gets exactly the forecast of `get_weather_data` for its own text. |
| Pipeline.FetchIgnoresPadding | app.py:88 | Whitespace around a route entry never changes what is fetched for it. |
| Pipeline.CollectForecasts | app.py:84-90 | The loop keeps exactly the fetch results that are present, in route order. Their number is the route length minus the misses. |
| Pipeline.ProcessWeatherData | app.py:81-94 | The route is rebuilt from the waypoints. The forecasts come from stripped names. The writer never hits its index error, because there are never more forecasts than route names. |
| Pipeline.ProcessWeatherDataFixed | app.py:81-94 | The corrected step writes the header and one row per day of every forecast that came back. |
| Pipeline.FixedTableLabelled | app.py:39 | In the corrected step's table, day d of the k-th forecast that came back is labelled with the route entry that forecast was fetched for, the entry at the k-th surviving position. |
| Pipeline.TaggedRowsFetched | app.py:27-39 | For any fetch step, the corrected rows match the untagged loop: as many entries, and day d of the k-th collected forecast is labelled with the route entry that fetched it. |
| Pipeline.TaggedEntry | app.py:87-90 | In the corrected pairing, the k-th entry is the route entry at the k-th surviving position with exactly the k-th collected forecast. |
| Pipeline.FixedRowsLabelled | app.py:39 | In the corrected table, day d of the k-th entry is labelled with the route entry `route[j]`, where j is the k-th surviving position. The row is built from day d of the forecast fetched for `route[j]`. |
| Pipeline.AsWrittenLabel | app.py:39 | As written, the k-th forecast is labelled `route[k]` and was fetched for `route[j]`, the k-th surviving position. Here j = k + (misses before j), so the label is taken from the position the forecast was fetched for exactly when no earlier city missed. With repeated names the text can still match by coincidence. The last route names go unused. |
| Pipeline.NoMissLabelsCorrect | app.py:87-93 | When no city of the route misses, the as-written labelling equals the corrected one. |
| Pipeline.MislabelledAfterMiss | app.py:39 | Take route A, B, C where only B misses. As written, C's forecast is labelled "B", although it differs from B's forecast; the corrected pairing labels it "C". |

## Findings

| source | as written | input that shows it | evidently intended | confidence | as-written member | corrected member |
|---|---|---|---|---|---|---|
| app.py:39 | Row label is `city_names[i]`, with `i` counting only the cities whose fetch succeeded (app.py:27, 89-90) | Route A, B, C where B's location search returns no hit: C's rows are labelled "B" and "C" is never used | Each row labelled with the city its forecast was fetched for | high (not executed) | Pipeline.MislabelledAfterMiss | Pipeline.FixedTableLabelled |

The general form of the defect is `Pipeline.AsWrittenLabel`. A label is
taken from the route position its forecast was fetched for exactly when no
earlier city of the route missed. When the route repeats a name, a label
taken from the wrong position can still carry the right text. The corrected
pipeline is `Pipeline.ProcessWeatherDataFixed`. It keeps each forecast
paired with its route entry (`Pipeline.Tagged`). `Pipeline.FixedTableLabelled`
states its rows' labels, and
`Pipeline.NoMissLabelsCorrect` shows both pipelines agree whenever nothing
misses.

A related detail is kept as written in both versions. Start and end names
are fetched after `strip()` (app.py:88), but the labels use the text as typed
(app.py:82). Waypoints are already trimmed.

Two behaviours are kept exactly as the code has them:

- Rows are labelled by position, not by fetched city, as described above.
- An empty location key counts as a miss too, because `if city_key` is false
  for an empty string.

## Left out

- The HTTP requests, the URL strings, `API_KEY` and JSON decoding are left
  out. The provider is an oracle `Provider.Oracle` that receives request
  records: search text with language "ru-ru", and horizon, key and the
  details flag.
- Transport and decoding failures are left out. In the source,
  `requests.get` can raise or, having no timeout, wait forever
  (app.py:52, 65), and `response.json()` can raise on a 200 response. Each
  of these aborts the whole forecast step before the CSV is written
  (app.py:93). It does not skip the city. The oracle always answers with a
  status and a decoded body, so the model never aborts.
- A falsy 200 forecast body is left out: `{}`, `null`, `[]`, `0` or `""`. The
  source drops any of these at app.py:89 as if the city had missed. The
  modelled payload is always a record carrying its `DailyForecasts` list,
  so none of these bodies can be represented.
- Missing fields in the provider's JSON (a `KeyError` in the source) are
  left out, because the payload is a typed record.
- ForecastCsv.SaveWeatherDataToCsv: on the index-error path, the source has
  already written the earlier rows to the file before the exception. The
  model reports only the error and the position of the payload that raised it.
- Opening and encoding the CSV file and formatting numbers as text are left
  out. The output is the header plus the sequence of row records.
- The `days` value is passed through to the oracle unchecked. Parsing it
  with `int(...)` belongs to the form handler.
- Flask routing, form access, redirects and error pages (app.py:97-123) are
  left out. Only the split/strip/filter of the waypoint field is modelled.
- The Dash/plotly/pandas dashboard and its global layout (app.py:126-217)
  are left out, except for the label colour map.
- Floating-point rounding in the temperature mean is left out. Dafny
  `real` is exact.
- `print` calls and `app.run()` are left out.
