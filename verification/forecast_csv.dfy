/**
  Turning fetched forecasts into the rows of the forecast table: one row
  per (city, forecast day), holding the mean temperature, the wind and
  precipitation values as given, and the favourability label.
 */
module ForecastCsv {
  import opened Weather
  import opened Classifier

  /** One data row; the condition column is written as `Label(condition)`. */
  datatype Row = Row(
    city: string,
    date: string,
    averageTemperature: real,
    windSpeed: real,
    precipitationProbability: real,
    condition: Condition)

  /** The table as written: the header line, then the data rows in order. */
  datatype Table = Table(header: seq<string>, rows: seq<Row>)

  /**
    The writer either finishes, or stops with an index error when a payload
    has no city name at its position in the name list.
   */
  datatype CsvOutcome = Saved(table: Table) | IndexError(position: nat)

  const Header: seq<string> :=
    ["City", "Date", "Average Temperature", "Wind Speed", "Precipitation Probability", "Condition"]

  /** A row's label is the classifier applied to that row's own three values. */
  predicate Consistent(row: Row) {
    row.condition == CheckBadWeather(row.averageTemperature, row.windSpeed, row.precipitationProbability)
  }

  /**
    One forecast day as a row: the average temperature is the midpoint of
    the day's range, so it lies inside the range; wind and precipitation
    are copied; the label is consistent with the row.
   */
  function MakeRow(city: string, day: DailyForecast): (row: Row)
    ensures row.city == city && row.date == day.date
    ensures 2.0 * row.averageTemperature == day.minTemperature + day.maxTemperature
    ensures day.minTemperature <= day.maxTemperature ==>
      day.minTemperature <= row.averageTemperature <= day.maxTemperature
    ensures row.windSpeed == day.windSpeed
    ensures row.precipitationProbability == day.precipitationProbability
    ensures Consistent(row)
  {
    var average := (day.minTemperature + day.maxTemperature) / 2.0;
    Row(city, day.date, average, day.windSpeed, day.precipitationProbability,
        CheckBadWeather(average, day.windSpeed, day.precipitationProbability))
  }

  /** The rows of one city's forecast, in the forecast's day order. */
  function DayRows(entry: CityForecast): (rows: seq<Row>)
    ensures |rows| == |entry.payload.dailyForecasts|
  {
    seq(|entry.payload.dailyForecasts|, j requires 0 <= j < |entry.payload.dailyForecasts| =>
      MakeRow(entry.city, entry.payload.dailyForecasts[j]))
  }

  /** Number of forecast days over all entries. */
  function TotalDays(entries: seq<CityForecast>): nat {
    if |entries| == 0 then 0
    else TotalDays(entries[..|entries| - 1]) + |entries[|entries| - 1].payload.dailyForecasts|
  }

  /** All rows, entry after entry: one row per forecast day. */
  function Rows(entries: seq<CityForecast>): (rows: seq<Row>)
    ensures |rows| == TotalDays(entries)
  {
    if |entries| == 0 then []
    else Rows(entries[..|entries| - 1]) + DayRows(entries[|entries| - 1])
  }

  /** Every row of the table carries the label its own values call for. */
  lemma {:induction false} RowsConsistent(entries: seq<CityForecast>)
    ensures forall k | 0 <= k < |Rows(entries)| :: Consistent(Rows(entries)[k])
    decreases |entries|
  {
    if |entries| > 0 {
      var init := entries[..|entries| - 1];
      RowsConsistent(init);
      var rows := Rows(entries);
      var head := Rows(init);
      var tail := DayRows(entries[|entries| - 1]);
      assert rows == head + tail;
      forall k | 0 <= k < |rows|
        ensures Consistent(rows[k])
      {
        if k < |head| {
          assert rows[k] == head[k];
        } else {
          assert rows[k] == tail[k - |head|];
        }
      }
    }
  }

  lemma {:induction false} RowsSnoc(entries: seq<CityForecast>, last: CityForecast)
    ensures Rows(entries + [last]) == Rows(entries) + DayRows(last)
  {
    assert (entries + [last])[..|entries|] == entries;
  }

  /**
    Ordering: day `j` of entry `i` is the row right after all the days of
    the entries before `i`, and it is built from that city and that day.
   */
  lemma {:induction false} RowAt(entries: seq<CityForecast>, i: nat, j: nat)
    requires i < |entries| && j < |entries[i].payload.dailyForecasts|
    ensures TotalDays(entries[..i]) + j < |Rows(entries)|
    ensures Rows(entries)[TotalDays(entries[..i]) + j]
            == MakeRow(entries[i].city, entries[i].payload.dailyForecasts[j])
    decreases |entries|
  {
    var init := entries[..|entries| - 1];
    if i == |entries| - 1 {
      assert entries[..i] == init;
    } else {
      RowAt(init, i, j);
      assert init[..i] == entries[..i];
      assert init[i] == entries[i];
    }
  }

  /** `RowAt` for an entry known by its city and payload. */
  lemma {:induction false} RowOfEntry(entries: seq<CityForecast>, i: nat, city: string, payload: Payload, j: nat)
    requires i < |entries| && entries[i] == CityForecast(city, payload)
    requires j < |payload.dailyForecasts|
    ensures TotalDays(entries[..i]) + j < |Rows(entries)|
    ensures Rows(entries)[TotalDays(entries[..i]) + j] == MakeRow(city, payload.dailyForecasts[j])
  {
    RowAt(entries, i, j);
  }

  /**
    The source's labelling: the payload at position `i` is tagged with the
    name at position `i`, whatever city it was fetched for.
   */
  function Positional(payloads: seq<Payload>, names: seq<string>): (entries: seq<CityForecast>)
    requires |payloads| <= |names|
    ensures |entries| == |payloads|
    ensures forall i | 0 <= i < |entries| :: entries[i].city == names[i] && entries[i].payload == payloads[i]
  {
    seq(|payloads|, i requires 0 <= i < |payloads| => CityForecast(names[i], payloads[i]))
  }

  /** Labelling one more payload adds that payload's rows at the end. */
  lemma {:induction false} PositionalStep(payloads: seq<Payload>, names: seq<string>, i: nat)
    requires i < |payloads| && i < |names|
    ensures Rows(Positional(payloads[..i + 1], names))
            == Rows(Positional(payloads[..i], names)) + DayRows(CityForecast(names[i], payloads[i]))
  {
    var a := Positional(payloads[..i + 1], names);
    var b := Positional(payloads[..i], names);
    var entry := CityForecast(names[i], payloads[i]);
    assert a == b + [entry] by {
      assert |a| == |b + [entry]|;
      forall k | 0 <= k < |a|
        ensures a[k] == (b + [entry])[k]
      {
      }
    }
    RowsSnoc(b, entry);
  }

  function Min(a: nat, b: nat): nat {
    if a <= b then a else b
  }

  /** The inner loop: one row per day of a single forecast, in order. */
  method WriteDays(entry: CityForecast) returns (rows: seq<Row>)
    ensures rows == DayRows(entry)
  {
    var days := entry.payload.dailyForecasts;
    rows := [];
    var j := 0;
    while j < |days|
      invariant j <= |days|
      invariant rows == DayRows(entry)[..j]
    {
      rows := rows + [MakeRow(entry.city, days[j])];
      j := j + 1;
    }
  }

  /**
    `save_weather_data_to_csv`: the header, then for the i-th payload and
    each of its days a row labelled `city_names[i]`. The index error happens
    exactly when some payload past the end of the name list has a day to
    write, and it is raised at the first such payload; otherwise the rows
    are those of the positional labelling, and an empty payload list gives
    the header alone.
   */
  method SaveWeatherDataToCsv(weatherDataList: seq<Payload>, cityNames: seq<string>)
    returns (out: CsvOutcome)
    ensures out.IndexError? <==>
      exists i | |cityNames| <= i < |weatherDataList| :: weatherDataList[i].dailyForecasts != []
    ensures out.IndexError? ==>
      && |cityNames| <= out.position < |weatherDataList|
      && weatherDataList[out.position].dailyForecasts != []
      && forall i | |cityNames| <= i < out.position :: weatherDataList[i].dailyForecasts == []
    ensures out.Saved? ==> out.table.header == Header
    ensures out.Saved? ==>
      out.table.rows == Rows(Positional(weatherDataList[..Min(|weatherDataList|, |cityNames|)], cityNames))
    ensures out.Saved? && weatherDataList == [] ==> out.table.rows == []
    ensures |weatherDataList| <= |cityNames| ==>
      out.Saved? && out.table.rows == Rows(Positional(weatherDataList, cityNames))
  {
    var rows: seq<Row> := [];
    var i := 0;
    while i < |weatherDataList|
      invariant i <= |weatherDataList|
      invariant forall k | |cityNames| <= k < i :: weatherDataList[k].dailyForecasts == []
      invariant rows == Rows(Positional(weatherDataList[..Min(i, |cityNames|)], cityNames))
    {
      if weatherDataList[i].dailyForecasts != [] {
        // The first day's row reads `city_names[i]`.
        if i >= |cityNames| {
          return IndexError(i);
        }
      }
      if i < |cityNames| {
        var entry := CityForecast(cityNames[i], weatherDataList[i]);
        var dayRows := WriteDays(entry);
        PositionalStep(weatherDataList, cityNames, i);
        rows := rows + dayRows;
        assert Min(i + 1, |cityNames|) == i + 1;
      } else {
        assert Min(i + 1, |cityNames|) == Min(i, |cityNames|);
      }
      i := i + 1;
    }
    assert weatherDataList[..i] == weatherDataList;
    return Saved(Table(Header, rows));
  }
}
