/**
  The travel-favourability rule applied to every forecast day, the two
  label texts it writes, and the colour the dashboard gives each label.
 */
module Classifier {
  import opened Wrappers

  /** The two outcomes of the rule; `Label` gives the text written for each. */
  datatype Condition = Favourable | Unfavourable

  /** The text written in the Condition column: one distinct text per outcome. */
  function Label(condition: Condition): (text: string)
    ensures text == "неблагоприятные" <==> condition == Unfavourable
    ensures text == "благоприятные" <==> condition == Favourable
  {
    match condition
    case Favourable => "благоприятные"
    case Unfavourable => "неблагоприятные"
  }

  /** The four strict thresholds; a value exactly on a threshold does not trigger. */
  predicate Adverse(temperature: real, windSpeed: real, precipitation: real) {
    temperature < 0.0 || temperature > 35.0 || windSpeed > 50.0 || precipitation > 70.0
  }

  /**
    `check_bad_weather`: the checks run one after the other and any one of
    them is enough to make the day unfavourable.
   */
  function CheckBadWeather(temperature: real, windSpeed: real, precipitation: real): (condition: Condition)
    ensures condition == Unfavourable <==> Adverse(temperature, windSpeed, precipitation)
  {
    if temperature < 0.0 || temperature > 35.0 then Unfavourable
    else if windSpeed > 50.0 then Unfavourable
    else if precipitation > 70.0 then Unfavourable
    else Favourable
  }

  /** Values exactly on a threshold are favourable; just past it they are not. */
  lemma BoundaryValues()
    ensures CheckBadWeather(0.0, 10.0, 10.0) == Favourable
    ensures CheckBadWeather(-0.1, 10.0, 10.0) == Unfavourable
    ensures CheckBadWeather(35.0, 10.0, 10.0) == Favourable
    ensures CheckBadWeather(35.1, 10.0, 10.0) == Unfavourable
    ensures CheckBadWeather(20.0, 50.0, 10.0) == Favourable
    ensures CheckBadWeather(20.0, 50.1, 10.0) == Unfavourable
    ensures CheckBadWeather(20.0, 10.0, 70.0) == Favourable
    ensures CheckBadWeather(20.0, 10.0, 70.1) == Unfavourable
  {
  }

  /** The dashboard's colour map: a text it does not know has no colour. */
  function ConditionColour(text: string): (colour: Option<string>)
    ensures colour.Some? <==> text == Label(Favourable) || text == Label(Unfavourable)
  {
    if text == "благоприятные" then Some("green")
    else if text == "неблагоприятные" then Some("red")
    else None
  }

  /**
    Every label the classifier can write has a colour, and the colour is
    red exactly on adverse days.
   */
  lemma EveryLabelColoured(temperature: real, windSpeed: real, precipitation: real)
    ensures ConditionColour(Label(CheckBadWeather(temperature, windSpeed, precipitation))).Some?
    ensures ConditionColour(Label(CheckBadWeather(temperature, windSpeed, precipitation))) == Some("red")
            <==> Adverse(temperature, windSpeed, precipitation)
  {
    assert Label(Favourable) != Label(Unfavourable) by {
      assert |Label(Favourable)| != |Label(Unfavourable)|;
    }
  }
}
