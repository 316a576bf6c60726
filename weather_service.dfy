/**
 * The weather service of the game client: it classifies the provider's condition text into one
 * of seven categories, turns a temperature and a category into the visual effects the world view
 * applies (an `Effects` object that two passes fill in field by field), and answers
 * `getCurrentWeather` from its test settings, its 30-minute cache, a fixed default or a fetch.
 *
 * The fetch is a parameter `FetchOutcome`; the clock reading `Date.now()` is the parameter `now`.
 * JavaScript `undefined` and `null` fields are `None`.
 */
module WeatherService {
  import opened Wrappers
  import opened Text

  // ---------------------------------------------------------------------------------------------
  // normalizeCondition

  predicate RainGroup(c: string) {
    Contains(c, "rain") || Contains(c, "drizzle") || Contains(c, "shower")
  }

  predicate SnowGroup(c: string) {
    Contains(c, "snow") || Contains(c, "blizzard") || Contains(c, "sleet")
  }

  predicate FogGroup(c: string) {
    Contains(c, "fog") || Contains(c, "mist")
  }

  predicate CloudGroup(c: string) {
    Contains(c, "cloud") || Contains(c, "overcast")
  }

  predicate StormGroup(c: string) {
    Contains(c, "thunder") || Contains(c, "storm")
  }

  predicate ClearGroup(c: string) {
    Contains(c, "clear") || Contains(c, "sunny")
  }

  /** The seven categories `normalizeCondition` can return. */
  predicate IsCategory(r: string) {
    r == "rain" || r == "snow" || r == "fog" || r == "cloudy" || r == "storm" || r == "clear" || r == "partly_cloudy"
  }

  /**
   * `normalizeCondition`: the first group whose needle occurs in the lower-cased text decides,
   * in the order rain, snow, fog, cloud, storm, clear, partly; anything else is `clear`.
   */
  function NormalizeCondition(conditionText: string): (r: string)
    ensures IsCategory(r)
  {
    var condition := Lower(conditionText);
    if RainGroup(condition) then "rain"
    else if SnowGroup(condition) then "snow"
    else if FogGroup(condition) then "fog"
    else if CloudGroup(condition) then "cloudy"
    else if StormGroup(condition) then "storm"
    else if ClearGroup(condition) then "clear"
    else if Contains(condition, "partly") then "partly_cloudy"
    else "clear"
  }

  /** Each category is returned exactly when its group is the first one present. */
  lemma NormalizeConditionFirstMatch(conditionText: string)
    ensures var c := Lower(conditionText); var r := NormalizeCondition(conditionText);
      && (r == "rain" <==> RainGroup(c))
      && (r == "snow" <==> !RainGroup(c) && SnowGroup(c))
      && (r == "fog" <==> !RainGroup(c) && !SnowGroup(c) && FogGroup(c))
      && (r == "cloudy" <==> !RainGroup(c) && !SnowGroup(c) && !FogGroup(c) && CloudGroup(c))
      && (r == "storm" <==> !RainGroup(c) && !SnowGroup(c) && !FogGroup(c) && !CloudGroup(c) && StormGroup(c))
      && (r == "partly_cloudy" <==>
            !RainGroup(c) && !SnowGroup(c) && !FogGroup(c) && !CloudGroup(c) && !StormGroup(c) && !ClearGroup(c) && Contains(c, "partly"))
      && (r == "clear" <==>
            !RainGroup(c) && !SnowGroup(c) && !FogGroup(c) && !CloudGroup(c) && !StormGroup(c) && (ClearGroup(c) || !Contains(c, "partly")))
  {
  }

  /** The category depends on the text only up to letter case. */
  lemma NormalizeConditionIgnoresCase(s: string, t: string)
    requires Lower(s) == Lower(t)
    ensures NormalizeCondition(s) == NormalizeCondition(t)
  {
  }

  /** "Partly cloudy" is `cloudy`: the cloud group comes before `partly`, so `partly_cloudy` needs a text without "cloud". */
  lemma PartlyCloudyText(conditionText: string)
    ensures var c := Lower(conditionText);
      Contains(c, "partly cloudy") && !RainGroup(c) && !SnowGroup(c) && !FogGroup(c) ==> NormalizeCondition(conditionText) == "cloudy"
    ensures NormalizeCondition(conditionText) == "partly_cloudy" ==> !Contains(Lower(conditionText), "cloud")
  {
    if Contains(Lower(conditionText), "partly cloudy") {
      assert "partly cloudy" == "partly " + "cloud" + "y";
      ContainsPart(Lower(conditionText), "partly ", "cloud", "y");
    }
  }

  /** Rain wins over every later group: "Patchy rain with thunder" is `rain`. */
  lemma RainWins(conditionText: string)
    requires Contains(Lower(conditionText), "rain")
    ensures NormalizeCondition(conditionText) == "rain"
  {
  }

  // ---------------------------------------------------------------------------------------------
  // Temperature effects

  /** The filter, overlay and wording of one temperature band. */
  datatype Band = Band(filter: string, overlay: string, description: string)

  /** The bands of `applyTemperatureEffects`, from the top down. */
  function TemperatureBand(temperature: real): (b: Band)
  {
    if temperature >= 35.0 then
      Band("brightness(1.4) saturate(1.3) sepia(0.3) hue-rotate(10deg)", "rgba(255, 215, 0, 0.15)", "scorching hot")
    else if temperature >= 30.0 then
      Band("brightness(1.3) saturate(1.2) sepia(0.2) hue-rotate(5deg)", "rgba(255, 235, 59, 0.12)", "very hot")
    else if temperature >= 25.0 then
      Band("brightness(1.15) saturate(1.1) sepia(0.1)", "rgba(255, 245, 157, 0.08)", "warm")
    else if temperature >= 15.0 then
      Band("brightness(0.95) saturate(0.95) hue-rotate(-5deg)", "rgba(173, 216, 230, 0.05)", "cool")
    else if temperature >= 5.0 then
      Band("brightness(0.85) saturate(0.8) hue-rotate(-10deg) contrast(0.95)", "rgba(135, 206, 250, 0.1)", "cold")
    else
      Band("brightness(0.75) saturate(0.6) hue-rotate(-15deg) contrast(0.9)", "rgba(70, 130, 180, 0.15)", "very cold")
  }

  /** Every band has a wording. */
  lemma BandDescribed(temperature: real)
    ensures TemperatureBand(temperature).description != ""
  {
    TemperatureBands(temperature);
  }

  /** Each wording belongs to exactly one band of temperatures. */
  lemma TemperatureBands(temperature: real)
    ensures var d := TemperatureBand(temperature).description;
      && (d == "scorching hot" <==> temperature >= 35.0)
      && (d == "very hot" <==> 30.0 <= temperature < 35.0)
      && (d == "warm" <==> 25.0 <= temperature < 30.0)
      && (d == "cool" <==> 15.0 <= temperature < 25.0)
      && (d == "cold" <==> 5.0 <= temperature < 15.0)
      && (d == "very cold" <==> temperature < 5.0)
  {
    var d := TemperatureBand(temperature).description;
    if temperature >= 35.0 {
      assert d == "scorching hot";
    } else if temperature >= 30.0 {
      assert d == "very hot";
    } else if temperature >= 25.0 {
      assert d == "warm";
    } else if temperature >= 15.0 {
      assert d == "cool";
    } else if temperature >= 5.0 {
      assert d == "cold";
    } else {
      assert d == "very cold";
    }
  }

  // ---------------------------------------------------------------------------------------------
  // Condition effects

  /**
   * What one `case` of `applyConditionEffects` writes: the text appended to the base filter
   * (`None`: the filter is the base filter itself), the overlay (`None`: the base overlay), the
   * condition overlay, the animations pushed, the particles and the wording.
   */
  datatype Look = Look(filterTail: Option<string>, overlay: Option<string>, conditionOverlay: Option<string>,
                       animations: seq<string>, particles: Option<string>, description: string)

  /** The `case` of the switch for this condition; every case, the default included, has a wording. */
  function ConditionLook(condition: string): (l: Look)
    ensures l.description != ""
  {
    match condition
    case "rain" =>
      Look(Some("contrast(0.85) brightness(0.7) saturate(0.9)"), Some("rgba(100, 149, 237, 0.25)"),
           Some("rgba(0, 0, 0, 0.2)"), ["rain-effect"], Some("rain"), "rainy")
    case "snow" =>
      Look(Some("brightness(1.3) contrast(0.75) saturate(0.4)"), Some("rgba(240, 248, 255, 0.3)"),
           Some("rgba(255, 255, 255, 0.15)"), ["snow-effect"], Some("snow"), "snowy")
    case "fog" =>
      Look(Some("blur(0.5px) contrast(0.7) brightness(0.9)"), Some("rgba(220, 220, 220, 0.3)"),
           Some("rgba(255, 255, 255, 0.15)"), ["fog-effect"], None, "foggy")
    case "mist" =>
      Look(Some("blur(0.5px) contrast(0.7) brightness(0.9)"), Some("rgba(220, 220, 220, 0.3)"),
           Some("rgba(255, 255, 255, 0.15)"), ["fog-effect"], None, "misty")
    case "cloudy" =>
      Look(Some("brightness(0.7) contrast(0.9) saturate(0.8)"), Some("rgba(128, 128, 128, 0.2)"),
           Some("rgba(0, 0, 0, 0.1)"), [], None, "cloudy")
    case "overcast" =>
      Look(Some("brightness(0.7) contrast(0.9) saturate(0.8)"), Some("rgba(128, 128, 128, 0.2)"),
           Some("rgba(0, 0, 0, 0.1)"), [], None, "overcast")
    case "partly_cloudy" =>
      Look(Some("brightness(0.9) contrast(1.05)"), None, Some("rgba(128, 128, 128, 0.05)"), [], None, "partly cloudy")
    case "storm" =>
      Look(Some("brightness(0.5) contrast(1.3) saturate(0.6)"), Some("rgba(75, 0, 130, 0.25)"),
           Some("rgba(0, 0, 0, 0.3)"), ["storm-effect", "rain-effect"], Some("storm"), "stormy")
    case _ => Look(None, None, None, [], None, "clear")
  }

  /** The intensity after the condition pass; storms set 0.9, the other cases only raise it. */
  function ConditionIntensity(condition: string, intensity: real): (r: real)
    ensures condition == "storm" ==> r == 0.9
    ensures condition != "storm" ==> r >= intensity
  {
    match condition
    case "rain" => if intensity >= 0.8 then intensity else 0.8
    case "snow" => if intensity >= 0.8 then intensity else 0.8
    case "fog" => if intensity >= 0.6 then intensity else 0.6
    case "mist" => if intensity >= 0.6 then intensity else 0.6
    case "cloudy" => if intensity >= 0.5 then intensity else 0.5
    case "overcast" => if intensity >= 0.5 then intensity else 0.5
    case "storm" => 0.9
    case _ => intensity
  }

  /** The intensity of a fresh effects object, by condition: the table the comments of the source describe. */
  function FinalIntensity(condition: string): real {
    if condition == "storm" then 0.9
    else if condition == "rain" || condition == "snow" then 0.8
    else if condition == "fog" || condition == "mist" then 0.6
    else 0.5
  }

  /** Starting from the base intensity 0.5, the condition pass ends at the table's value. */
  lemma IntensityTable(condition: string)
    ensures ConditionIntensity(condition, 0.5) == FinalIntensity(condition)
  {
  }

  /** The animations of a fresh effects object, by condition. */
  lemma AnimationsTable(condition: string)
    ensures ConditionLook(condition).animations ==
      if condition == "rain" then ["rain-effect"]
      else if condition == "snow" then ["snow-effect"]
      else if condition == "fog" || condition == "mist" then ["fog-effect"]
      else if condition == "storm" then ["storm-effect", "rain-effect"]
      else []
  {
  }

  /** An unknown condition keeps the base filter and the base overlay and is described as clear. */
  lemma UnknownConditionIsClear(condition: string)
    requires !(condition in ["rain", "snow", "fog", "mist", "cloudy", "overcast", "partly_cloudy", "storm"])
    ensures ConditionLook(condition) == Look(None, None, None, [], None, "clear")
  {
  }

  /** `${x}` in a template literal. */
  function Show(o: Option<string>): string {
    if o.Some? then o.value else "undefined"
  }

  /** `a && b ? `${a} and ${b}` : a || b || 'pleasant'` on the two descriptions. */
  function Describe(conditionDescription: string, temperatureDescription: Option<string>): (r: string)
    ensures temperatureDescription.Some? && temperatureDescription.value != "" && conditionDescription != "" ==>
      r == conditionDescription + " and " + temperatureDescription.value
  {
    if conditionDescription != "" && temperatureDescription.Some? && temperatureDescription.value != "" then
      conditionDescription + " and " + temperatureDescription.value
    else if conditionDescription != "" then conditionDescription
    else if temperatureDescription.Some? && temperatureDescription.value != "" then temperatureDescription.value
    else "pleasant"
  }

  /** The object `getWeatherEffects` builds and the two passes fill in. */
  class Effects {
    var temperature: real
    var condition: string
    var isCold: bool
    var isHot: bool
    var intensity: real
    var animations: seq<string>
    var particles: Option<string>
    var baseFilter: Option<string>
    var baseOverlay: Option<string>
    var temperatureDescription: Option<string>
    var filter: Option<string>
    var overlay: Option<string>
    var conditionOverlay: Option<string>
    var conditionDescription: Option<string>
    var description: Option<string>

    /** The object literal: base intensity 0.5, no animations, no particles, nothing else set. */
    constructor (temperature: real, condition: string)
      ensures this.temperature == temperature && this.condition == condition
      ensures isCold == (temperature < 25.0) && isHot == (temperature >= 25.0)
      ensures intensity == 0.5 && animations == [] && particles == None
      ensures baseFilter == None && baseOverlay == None && temperatureDescription == None
      ensures filter == None && overlay == None && conditionOverlay == None
      ensures conditionDescription == None && description == None
    {
      this.temperature := temperature;
      this.condition := condition;
      isCold := temperature < 25.0;
      isHot := temperature >= 25.0;
      intensity := 0.5;
      animations := [];
      particles := None;
      baseFilter := None;
      baseOverlay := None;
      temperatureDescription := None;
      filter := None;
      overlay := None;
      conditionOverlay := None;
      conditionDescription := None;
      description := None;
    }

    /** `applyTemperatureEffects`: the band of the temperature sets the three base fields. */
    method ApplyTemperatureEffects(temperature: real)
      modifies this
      ensures var b := TemperatureBand(temperature);
        baseFilter == Some(b.filter) && baseOverlay == Some(b.overlay) && temperatureDescription == Some(b.description)
      ensures this.temperature == old(this.temperature) && condition == old(condition)
      ensures isCold == old(isCold) && isHot == old(isHot) && intensity == old(intensity)
      ensures animations == old(animations) && particles == old(particles)
      ensures filter == old(filter) && overlay == old(overlay) && conditionOverlay == old(conditionOverlay)
      ensures conditionDescription == old(conditionDescription) && description == old(description)
    {
      var b := TemperatureBand(temperature);
      baseFilter := Some(b.filter);
      baseOverlay := Some(b.overlay);
      temperatureDescription := Some(b.description);
    }

    /**
     * `applyConditionEffects`: the `case` of the condition, as the table `ConditionLook` lists it,
     * sets the filter on top of the base filter, the overlays, the wording and the intensity, and
     * pushes its animations and, for rain, snow and storms, the particles; then the combined
     * description.
     */
    method ApplyConditionEffects(condition: string)
      modifies this
      ensures var l := ConditionLook(condition);
        && filter == (if l.filterTail.Some? then Some(Show(old(baseFilter)) + " " + l.filterTail.value) else old(baseFilter))
        && overlay == (if l.overlay.Some? then l.overlay else old(baseOverlay))
        && conditionOverlay == (if l.conditionOverlay.Some? then l.conditionOverlay else old(conditionOverlay))
        && animations == old(animations) + l.animations
        && particles == (if l.particles.Some? then l.particles else old(particles))
        && conditionDescription == Some(l.description)
        && intensity == ConditionIntensity(condition, old(intensity))
        && description == Some(Describe(l.description, old(temperatureDescription)))
      ensures this.temperature == old(this.temperature) && this.condition == old(this.condition)
      ensures isCold == old(isCold) && isHot == old(isHot)
      ensures baseFilter == old(baseFilter) && baseOverlay == old(baseOverlay)
      ensures temperatureDescription == old(temperatureDescription)
    {
      ApplyLook(ConditionLook(condition), ConditionIntensity(condition, intensity));
      CombineDescription();
    }

    /** The body of one `case`: the look's settings, over the base filter and overlay. */
    method ApplyLook(l: Look, newIntensity: real)
      modifies this
      ensures (filter, overlay, conditionOverlay, animations, particles, conditionDescription, intensity) == (
        if l.filterTail.Some? then Some(Show(old(baseFilter)) + " " + l.filterTail.value) else old(baseFilter),
        if l.overlay.Some? then l.overlay else old(baseOverlay),
        if l.conditionOverlay.Some? then l.conditionOverlay else old(conditionOverlay),
        old(animations) + l.animations,
        if l.particles.Some? then l.particles else old(particles),
        Some(l.description),
        newIntensity)
      ensures (temperature, condition, isCold, isHot, baseFilter, baseOverlay, temperatureDescription, description)
        == old((temperature, condition, isCold, isHot, baseFilter, baseOverlay, temperatureDescription, description))
    {
      filter := if l.filterTail.Some? then Some(Show(baseFilter) + " " + l.filterTail.value) else baseFilter;
      overlay := if l.overlay.Some? then l.overlay else baseOverlay;
      if l.conditionOverlay.Some? {
        conditionOverlay := l.conditionOverlay;
      }
      animations := animations + l.animations;
      if l.particles.Some? {
        particles := l.particles;
      }
      conditionDescription := Some(l.description);
      intensity := newIntensity;
    }

    /** "Combine description": the condition's wording and the temperature's, joined by `and`. */
    method CombineDescription()
      requires conditionDescription.Some?
      modifies this
      ensures description == Some(Describe(old(conditionDescription).value, temperatureDescription))
      ensures (temperature, condition, isCold, isHot, intensity, animations, particles, baseFilter)
        == old((temperature, condition, isCold, isHot, intensity, animations, particles, baseFilter))
      ensures (baseOverlay, temperatureDescription, filter, overlay, conditionOverlay, conditionDescription)
        == old((baseOverlay, temperatureDescription, filter, overlay, conditionOverlay, conditionDescription))
    {
      description := Some(Describe(conditionDescription.value, temperatureDescription));
    }
  }

  /**
   * `getWeatherEffects`: a fresh effects object after the temperature pass and then the
   * condition pass; a missing condition is `clear`.
   */
  method GetWeatherEffects(temperature: real, condition: Option<string>) returns (e: Effects)
    ensures fresh(e)
    ensures var c := condition.GetOr("clear"); var b := TemperatureBand(temperature); var l := ConditionLook(c);
      && e.temperature == temperature && e.condition == c
      && (e.isCold <==> !e.isHot) && (e.isCold <==> temperature < 25.0)
      && e.intensity == FinalIntensity(c)
      && e.animations == l.animations
      && e.description == Some(l.description + " and " + b.description)
      && e.baseFilter == Some(b.filter) && e.baseOverlay == Some(b.overlay)
      && e.filter == (if l.filterTail.Some? then Some(b.filter + " " + l.filterTail.value) else Some(b.filter))
      && e.overlay == (if l.overlay.Some? then l.overlay else Some(b.overlay))
      && e.conditionOverlay == l.conditionOverlay
      && e.particles == l.particles
      && e.temperatureDescription == Some(b.description) && e.conditionDescription == Some(l.description)
  {
    var c := condition.GetOr("clear");
    e := new Effects(temperature, c);
    e.ApplyTemperatureEffects(temperature);
    e.ApplyConditionEffects(c);
    IntensityTable(c);
    BandDescribed(temperature);
  }

  // ---------------------------------------------------------------------------------------------
  // The service

  /** The extra readings of a fetched report. */
  datatype Details = Details(humidity: real, windSpeed: real, visibility: real)

  /** A weather report; only a fetched one has `Details`. */
  datatype Weather = Weather(temperature: real, condition: string, conditionText: string, details: Option<Details>)

  /** `{ temperature: 22, condition: 'clear', conditionText: 'Clear' }`. */
  const DefaultWeather: Weather := Weather(22.0, "clear", "Clear", None)

  /** The key the sample configuration ships with. */
  const PlaceholderKey: string := "your_weatherapi_key_here"

  /** The fetch: a parsed `current` block, or a failure (network error, non-OK status, bad body). */
  datatype FetchOutcome =
    | Fetched(tempC: real, conditionText: string, humidity: real, windKph: real, visKm: real)
    | FetchFailed

  /** The build-time settings `import.meta.env` provides. */
  datatype Env = Env(apiKey: Option<string>, testMode: Option<string>, testTemperature: Option<real>,
                     testCondition: Option<string>, testConditionText: Option<string>)

  /** `x || fallback` on a string. */
  function OrElse(o: Option<string>, fallback: string): (r: string)
    ensures o.Some? && o.value != "" ==> r == o.value
    ensures !(o.Some? && o.value != "") ==> r == fallback
  {
    if o.Some? && o.value != "" then o.value else fallback
  }

  /** `parseFloat(x) || 25`: an unparsable value (`NaN`) and 0 both give 25. */
  function TemperatureSetting(parsed: Option<real>): (r: real)
    ensures parsed.Some? && parsed.value != 0.0 ==> r == parsed.value
    ensures parsed.None? || parsed.value == 0.0 ==> r == 25.0
  {
    if parsed.Some? && parsed.value != 0.0 then parsed.value else 25.0
  }

  /** The answer in test mode: an empty condition counts as `clear`, an empty text falls back to it. */
  function TestWeather(temperature: real, testCondition: string, testConditionText: string): (w: Weather)
    ensures w.temperature == temperature && IsCategory(w.condition) && w.conditionText != ""
    ensures testConditionText != "" ==> w.conditionText == testConditionText
    ensures testConditionText == "" ==> w.conditionText == OrElse(Some(testCondition), "clear")
    ensures w.condition == NormalizeCondition(if testCondition != "" then testCondition else "clear")
    ensures w.details == None
  {
    var rawCondition := OrElse(Some(testCondition), "clear");
    Weather(temperature, NormalizeCondition(rawCondition), OrElse(Some(testConditionText), rawCondition), None)
  }

  /** The report made from a fetched `current` block. */
  function FetchedWeather(f: FetchOutcome): (w: Weather)
    requires f.Fetched?
    ensures w.temperature == f.tempC && w.conditionText == f.conditionText
    ensures w.condition == NormalizeCondition(f.conditionText)
    ensures w.details == Some(Details(f.humidity, f.windKph, f.visKm))
  {
    Weather(f.tempC, NormalizeCondition(f.conditionText), f.conditionText, Some(Details(f.humidity, f.windKph, f.visKm)))
  }

  /** A key the service will use: set, non-empty and not the placeholder. */
  predicate UsableKey(apiKey: Option<string>) {
    apiKey.Some? && apiKey.value != "" && apiKey.value != PlaceholderKey
  }

  class Service {
    const apiKey: Option<string>
    var testMode: bool
    var testTemperature: real
    var testCondition: string
    var testConditionText: string
    var cachedWeather: Option<Weather>
    var lastFetchTime: int
    /** 30 minutes, in milliseconds. */
    const cacheExpiry: int

    /** The constructor reads the settings; the cache starts empty. */
    constructor (env: Env)
      ensures apiKey == env.apiKey && testMode == (env.testMode == Some("true"))
      ensures testTemperature == TemperatureSetting(env.testTemperature)
      ensures testCondition == OrElse(env.testCondition, "clear")
      ensures testConditionText == OrElse(env.testConditionText, "Clear")
      ensures cachedWeather == None && lastFetchTime == 0 && cacheExpiry == 1800000
    {
      apiKey := env.apiKey;
      testMode := env.testMode == Some("true");
      testTemperature := TemperatureSetting(env.testTemperature);
      testCondition := OrElse(env.testCondition, "clear");
      testConditionText := OrElse(env.testConditionText, "Clear");
      cachedWeather := None;
      lastFetchTime := 0;
      cacheExpiry := 1800000;
    }

    /** The cache answers: a report is stored and is less than `cacheExpiry` old. */
    predicate CacheFresh(now: int)
      reads this
    {
      cachedWeather.Some? && now - lastFetchTime < cacheExpiry
    }

    /**
     * `getCurrentWeather`: test mode first, then a fresh cache, then the default when there is
     * no usable key, then the fetch. Only a successful fetch changes the state: it is cached
     * with the time it was made.
     */
    method GetCurrentWeather(now: int, fetched: FetchOutcome) returns (w: Weather)
      modifies this
      ensures old(testMode) ==> w == TestWeather(testTemperature, testCondition, testConditionText)
      ensures !old(testMode) && old(CacheFresh(now)) ==> w == old(cachedWeather).value
      ensures !old(testMode) && !old(CacheFresh(now)) && (!UsableKey(apiKey) || fetched.FetchFailed?) ==> w == DefaultWeather
      ensures !old(testMode) && !old(CacheFresh(now)) && UsableKey(apiKey) && fetched.Fetched? ==>
        w == FetchedWeather(fetched) && cachedWeather == Some(w) && lastFetchTime == now
      ensures old(testMode) || old(CacheFresh(now)) || !UsableKey(apiKey) || fetched.FetchFailed? ==>
        cachedWeather == old(cachedWeather) && lastFetchTime == old(lastFetchTime)
      ensures testMode == old(testMode) && testTemperature == old(testTemperature)
      ensures testCondition == old(testCondition) && testConditionText == old(testConditionText)
    {
      if testMode {
        var rawCondition := OrElse(Some(testCondition), "clear");
        w := Weather(testTemperature, NormalizeCondition(rawCondition), OrElse(Some(testConditionText), rawCondition), None);
        return;
      }
      if cachedWeather.Some? && now - lastFetchTime < cacheExpiry {
        w := cachedWeather.value;
        return;
      }
      if apiKey.None? || apiKey.value == "" || apiKey.value == PlaceholderKey {
        w := DefaultWeather;
        return;
      }
      match fetched {
        case FetchFailed =>
          w := DefaultWeather;
        case Fetched(tempC, conditionText, humidity, windKph, visKm) =>
          w := Weather(tempC, NormalizeCondition(conditionText), conditionText, Some(Details(humidity, windKph, visKm)));
          cachedWeather := Some(w);
          lastFetchTime := now;
      }
    }

    /** `setTestTemperature`: test mode on, with this temperature. */
    method SetTestTemperature(temperature: real)
      modifies this
      ensures testMode && testTemperature == temperature
      ensures testCondition == old(testCondition) && testConditionText == old(testConditionText)
      ensures cachedWeather == old(cachedWeather) && lastFetchTime == old(lastFetchTime)
    {
      testMode := true;
      testTemperature := temperature;
    }

    /** `setTestCondition`: test mode on, with this condition; the text defaults to the condition. */
    method SetTestCondition(condition: string, conditionText: Option<string>)
      modifies this
      ensures testMode && testCondition == condition && testConditionText == OrElse(conditionText, condition)
      ensures testTemperature == old(testTemperature)
      ensures cachedWeather == old(cachedWeather) && lastFetchTime == old(lastFetchTime)
    {
      testMode := true;
      testCondition := condition;
      testConditionText := OrElse(conditionText, condition);
    }

    /** `setTestWeather`: both at once. */
    method SetTestWeather(temperature: real, condition: string, conditionText: Option<string>)
      modifies this
      ensures testMode && testTemperature == temperature && testCondition == condition
      ensures testConditionText == OrElse(conditionText, condition)
      ensures cachedWeather == old(cachedWeather) && lastFetchTime == old(lastFetchTime)
    {
      testMode := true;
      testTemperature := temperature;
      testCondition := condition;
      testConditionText := OrElse(conditionText, condition);
    }

    /** `disableTestMode`: clears the flag and nothing else; the test settings stay for the next enable. */
    method DisableTestMode()
      modifies this
      ensures !testMode
      ensures testTemperature == old(testTemperature) && testCondition == old(testCondition)
      ensures testConditionText == old(testConditionText)
      ensures cachedWeather == old(cachedWeather) && lastFetchTime == old(lastFetchTime)
    {
      testMode := false;
    }
  }

  /** After `setTestWeather(t, c, text)` the service answers `t`, the category of `c` and the text. */
  lemma SetTestWeatherAnswer(t: real, c: string, text: Option<string>)
    ensures var w := TestWeather(t, c, OrElse(text, c));
      && w.temperature == t
      && (c != "" ==> w.condition == NormalizeCondition(c))
      && (c != "" ==> w.conditionText == OrElse(text, c))
  {
  }
}
