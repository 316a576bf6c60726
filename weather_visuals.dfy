/**
 * The temperature and condition helpers of the world view: a saturation boost for extreme
 * temperatures, a hue shift towards yellow in the heat and towards blue in the cold, condition
 * flags read off the provider's condition text, and rain and cloud intensities. Temperatures are
 * degrees Celsius as reals; the classifiers lower-case the text first.
 */
module WeatherVisuals {
  import opened Text

  /** The temperature the hue shift is centred on. */
  const BaseTemperature: real := 25.0

  /** `getBackgroundSaturation`: 2.0 below 15 or above 30 degrees, 1.5 between. */
  function BackgroundSaturation(temperature: real): (r: real)
    ensures r == 2.0 <==> temperature < 15.0 || temperature > 30.0
    ensures r == 1.5 <==> 15.0 <= temperature <= 30.0
  {
    if temperature < 15.0 || temperature > 30.0 then 2.0 else 1.5
  }

  /** `getWarmColorFilter`: the sepia filter is gone, every temperature gives 0. */
  function WarmColorFilter(temperature: real): (r: real)
    ensures r == 0.0
  {
    0.0
  }

  /** `Math.min(a, b)`. */
  function Min(a: real, b: real): (r: real)
    ensures r <= a && r <= b && (r == a || r == b)
  {
    if a <= b then a else b
  }

  /**
   * `getHueRotation`: no shift at 25 degrees; half a degree of hue per degree of heat towards
   * yellow, at most 120; two thirds of a degree per degree of cold towards blue, at most 180.
   */
  function HueRotation(temperature: real): (r: real)
    ensures temperature == BaseTemperature ==> r == 0.0
    ensures temperature > BaseTemperature ==> -120.0 <= r < 0.0
    ensures temperature < BaseTemperature ==> 0.0 < r <= 180.0
  {
    if temperature > BaseTemperature then
      var warmthFactor := Min((temperature - BaseTemperature) / 2.0, 120.0);
      -warmthFactor
    else if temperature < BaseTemperature then
      Min((BaseTemperature - temperature) / 1.5, 180.0)
    else
      0.0
  }

  /** The hue shift never grows as the temperature rises. */
  lemma HueRotationNonIncreasing(t1: real, t2: real)
    requires t1 <= t2
    ensures HueRotation(t2) <= HueRotation(t1)
  {
  }

  /** The hue shift reaches its bounds exactly at 265 and at -245 degrees. */
  lemma HueRotationSaturates(temperature: real)
    ensures HueRotation(temperature) == -120.0 <==> temperature >= 265.0
    ensures HueRotation(temperature) == 180.0 <==> temperature <= -245.0
  {
  }

  // ---------------------------------------------------------------------------------------------
  // Condition text

  /** The needle groups of `getWeatherConditions`, on the lower-cased text. */
  predicate RainWords(c: string) {
    Contains(c, "rain") || Contains(c, "drizzle") || Contains(c, "shower") || Contains(c, "storm") || Contains(c, "thunderstorm")
  }

  predicate CloudWords(c: string) {
    Contains(c, "cloud") || Contains(c, "overcast") || Contains(c, "fog") || Contains(c, "mist")
  }

  predicate SnowWords(c: string) {
    Contains(c, "snow") || Contains(c, "blizzard") || Contains(c, "sleet")
  }

  predicate SunWords(c: string) {
    Contains(c, "sunny") || Contains(c, "clear") || Contains(c, "fair")
  }

  /** The four flags; each is computed on its own, so several can hold at once. */
  datatype Conditions = Conditions(isRainy: bool, isCloudy: bool, isSnowy: bool, isSunny: bool)

  /** `getWeatherConditions`. */
  function WeatherConditions(conditionText: string): (r: Conditions)
    ensures r.isRainy <==> RainWords(Lower(conditionText))
    ensures r.isCloudy <==> CloudWords(Lower(conditionText))
    ensures r.isSnowy <==> SnowWords(Lower(conditionText))
    ensures r.isSunny <==> SunWords(Lower(conditionText))
  {
    var condition := Lower(conditionText);
    Conditions(RainWords(condition), CloudWords(condition), SnowWords(condition), SunWords(condition))
  }

  /** The flags depend on the text only up to letter case. */
  lemma WeatherConditionsIgnoreCase(s: string, t: string)
    requires Lower(s) == Lower(t)
    ensures WeatherConditions(s) == WeatherConditions(t)
  {
  }

  /** Storms count as rainy weather and fog and mist as cloudy weather. */
  lemma StormIsRainyFogIsCloudy(conditionText: string)
    ensures Contains(Lower(conditionText), "storm") ==> WeatherConditions(conditionText).isRainy
    ensures Contains(Lower(conditionText), "fog") || Contains(Lower(conditionText), "mist") ==> WeatherConditions(conditionText).isCloudy
  {
  }

  /** The `thunderstorm` needle adds nothing: every text that has it has `storm`. */
  lemma ThunderstormHasStorm(c: string)
    ensures Contains(c, "thunderstorm") ==> Contains(c, "storm")
    ensures RainWords(c) <==> Contains(c, "rain") || Contains(c, "drizzle") || Contains(c, "shower") || Contains(c, "storm")
  {
    if Contains(c, "thunderstorm") {
      assert "thunderstorm" == "thunder" + "storm" + "";
      ContainsPart(c, "thunder", "storm", "");
    }
  }

  /** A text can be rainy and sunny at once. */
  lemma FlagsOverlap(c: string)
    requires Contains(Lower(c), "rain") && Contains(Lower(c), "sunny")
    ensures WeatherConditions(c).isRainy && WeatherConditions(c).isSunny
  {
  }

  // ---------------------------------------------------------------------------------------------
  // Intensities

  /** `getRainIntensity`: heavy rain and storms 1.0, any other rain 0.6, drizzle and showers 0.3. */
  function RainIntensity(conditionText: string): (r: real)
    ensures r == 0.0 || r == 0.3 || r == 0.6 || r == 1.0
    ensures 0.0 <= r <= 1.0
  {
    var condition := Lower(conditionText);
    if Contains(condition, "heavy rain") || Contains(condition, "storm") || Contains(condition, "thunderstorm") then 1.0
    else if Contains(condition, "moderate rain") || Contains(condition, "rain") then 0.6
    else if Contains(condition, "light rain") || Contains(condition, "drizzle") || Contains(condition, "shower") then 0.3
    else 0.0
  }

  /** Every text with `rain` in it and no heavy rain or storm gets 0.6, light rain included. */
  lemma AnyRainIsModerate(conditionText: string)
    requires Contains(Lower(conditionText), "rain")
    requires !Contains(Lower(conditionText), "heavy rain") && !Contains(Lower(conditionText), "storm")
    ensures RainIntensity(conditionText) == 0.6
  {
    ThunderstormHasStorm(Lower(conditionText));
  }

  /** The 0.3 level belongs to drizzle and showers alone: the `light rain` needle is never what decides. */
  lemma LightRainLevel(conditionText: string)
    ensures RainIntensity(conditionText) == 0.3 <==>
      var c := Lower(conditionText);
      !Contains(c, "rain") && !Contains(c, "storm") && (Contains(c, "drizzle") || Contains(c, "shower"))
  {
    var c := Lower(conditionText);
    ThunderstormHasStorm(c);
    if Contains(c, "heavy rain") {
      assert "heavy rain" == "heavy " + "rain" + "";
      ContainsPart(c, "heavy ", "rain", "");
    }
    if Contains(c, "light rain") {
      assert "light rain" == "light " + "rain" + "";
      ContainsPart(c, "light ", "rain", "");
    }
    if Contains(c, "moderate rain") {
      assert "moderate rain" == "moderate " + "rain" + "";
      ContainsPart(c, "moderate ", "rain", "");
    }
  }

  /** `getCloudIntensity`: overcast and heavy cloud 0.8, cloudy 0.6, a few clouds 0.3. */
  function CloudIntensity(conditionText: string): (r: real)
    ensures r == 0.0 || r == 0.3 || r == 0.6 || r == 0.8
    ensures 0.0 <= r <= 0.8
  {
    var condition := Lower(conditionText);
    if Contains(condition, "overcast") || Contains(condition, "heavy cloud") then 0.8
    else if Contains(condition, "mostly cloudy") || Contains(condition, "cloudy") then 0.6
    else if Contains(condition, "partly cloudy") || Contains(condition, "few clouds") then 0.3
    else 0.0
  }

  /** "Partly cloudy" reads as cloudy (0.6), because the `cloudy` needle is tried first. */
  lemma PartlyCloudyIsCloudy(conditionText: string)
    requires Contains(Lower(conditionText), "partly cloudy")
    requires !Contains(Lower(conditionText), "overcast") && !Contains(Lower(conditionText), "heavy cloud")
    ensures CloudIntensity(conditionText) == 0.6
  {
    assert "partly cloudy" == "partly " + "cloudy" + "";
    ContainsPart(Lower(conditionText), "partly ", "cloudy", "");
  }

  /** The 0.3 level belongs to "few clouds" alone. */
  lemma FewCloudsLevel(conditionText: string)
    ensures CloudIntensity(conditionText) == 0.3 <==>
      var c := Lower(conditionText);
      !Contains(c, "overcast") && !Contains(c, "heavy cloud") && !Contains(c, "cloudy") && Contains(c, "few clouds")
  {
    var c := Lower(conditionText);
    if Contains(c, "partly cloudy") {
      assert "partly cloudy" == "partly " + "cloudy" + "";
      ContainsPart(c, "partly ", "cloudy", "");
    }
    if Contains(c, "mostly cloudy") {
      assert "mostly cloudy" == "mostly " + "cloudy" + "";
      ContainsPart(c, "mostly ", "cloudy", "");
    }
  }
}
