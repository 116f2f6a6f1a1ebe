/**
 * The formatting utilities of the weather client (temperature, wind speed, compass direction,
 * icon URL) and the pure decisions inside its request functions: which message a failed
 * request reports, and how the two requests of a lookup are joined.
 */
module WeatherApi {
  import opened Wrappers
  import opened Numbers
  import opened WeatherTypes

  // ---------------------------------------------------------------- temperature

  /** `(temp * 9) / 5 + 32`; converting back recovers the Celsius value. */
  function ToFahrenheit(celsius: real): (fahrenheit: real)
    ensures (fahrenheit - 32.0) * 5.0 / 9.0 == celsius
  {
    celsius * 9.0 / 5.0 + 32.0
  }

  /** The unit suffix `formatTemperature` appends: Fahrenheit only for exactly "F". */
  function TemperatureSuffix(unit: string): string {
    if unit == "F" then "°F" else "°C"
  }

  /** The value `formatTemperature` rounds: converted to Fahrenheit only for exactly "F". */
  function ShownTemperature(celsius: real, unit: string): real {
    if unit == "F" then ToFahrenheit(celsius) else celsius
  }

  /**
   * `formatTemperature(temp, unit)`; the default unit "C", like every unit other than "F",
   * takes the Celsius branch.
   */
  function FormatTemperature(temp: real, unit: string): (r: string)
    ensures |r| > 2 && r[|r| - 2..] == TemperatureSuffix(unit)
  {
    if unit == "F" then
      IntString(Round(ToFahrenheit(temp))) + "°F"
    else
      IntString(Round(temp)) + "°C"
  }

  /**
   * What a formatted temperature says: its text before the two-character suffix is the plain
   * decimal rendering of, and reads back as, the integer nearest to the temperature in the
   * chosen unit (halves rounded up).
   */
  lemma FormatTemperatureReading(temp: real, unit: string)
    ensures var r := FormatTemperature(temp, unit);
            var n := ParseInt(r[..|r| - 2]);
            && n.Some?
            && r[..|r| - 2] == IntString(n.value)
            && ShownTemperature(temp, unit) - 0.5 < n.value as real <= ShownTemperature(temp, unit) + 0.5
  {
    var r := FormatTemperature(temp, unit);
    var k := Round(ShownTemperature(temp, unit));
    assert r[..|r| - 2] == IntString(k);
    IntStringRoundTrip(k);
  }

  /** The renderings the utility tests expect. */
  lemma FormatTemperatureExamplesCelsius()
    ensures FormatTemperature(25.7, "C") == "26°C"
    ensures FormatTemperature(0.0, "C") == "0°C"
    ensures FormatTemperature(-5.3, "C") == "-5°C"
  {
  }

  lemma FormatTemperatureExamplesFahrenheit()
    ensures FormatTemperature(25.0, "F") == "77°F"
    ensures FormatTemperature(0.0, "F") == "32°F"
    ensures FormatTemperature(-5.0, "F") == "23°F"
  {
  }

  // ---------------------------------------------------------------- wind speed

  /** The factor `formatWindSpeed` scales metres per second by; the `default` branch scales by 1. */
  function SpeedFactor(unit: string): real {
    if unit == "km/h" then 3.6 else if unit == "mph" then 2.237 else 1.0
  }

  /** The suffix `formatWindSpeed` appends; the `default` branch says " m/s". */
  function SpeedSuffix(unit: string): string {
    if unit == "km/h" then " km/h" else if unit == "mph" then " mph" else " m/s"
  }

  /** `formatWindSpeed(speed, unit)`, with the `switch` over the unit string. */
  function FormatWindSpeed(speed: real, unit: string): (r: string)
    ensures |r| > |SpeedSuffix(unit)| && r[|r| - |SpeedSuffix(unit)|..] == SpeedSuffix(unit)
  {
    match unit
    case "km/h" => IntString(Round(speed * 3.6)) + " km/h"
    case "mph" => IntString(Round(speed * 2.237)) + " mph"
    case _ => IntString(Round(speed)) + " m/s"
  }

  /**
   * What a formatted wind speed says: before its suffix stands the plain decimal rendering of
   * the integer nearest to the speed times the unit's factor.
   */
  lemma FormatWindSpeedReading(speed: real, unit: string)
    ensures var r := FormatWindSpeed(speed, unit);
            var v := speed * SpeedFactor(unit);
            var n := ParseInt(r[..|r| - |SpeedSuffix(unit)|]);
            && n.Some?
            && r[..|r| - |SpeedSuffix(unit)|] == IntString(n.value)
            && v - 0.5 < n.value as real <= v + 0.5
  {
    var r := FormatWindSpeed(speed, unit);
    var k := Round(speed * SpeedFactor(unit));
    assert r[..|r| - |SpeedSuffix(unit)|] == IntString(k);
    IntStringRoundTrip(k);
  }

  /** Any unit other than "km/h" and "mph" formats exactly like "m/s". */
  lemma FormatWindSpeedDefault(speed: real, unit: string)
    requires unit != "km/h" && unit != "mph"
    ensures FormatWindSpeed(speed, unit) == FormatWindSpeed(speed, "m/s")
  {
  }

  /** The renderings the utility tests expect, one lemma per unit. */
  lemma FormatWindSpeedExamplesMetres()
    ensures FormatWindSpeed(5.5, "m/s") == "6 m/s"
    ensures FormatWindSpeed(0.0, "m/s") == "0 m/s"
  {
  }

  lemma FormatWindSpeedExamplesKilometres()
    ensures FormatWindSpeed(5.5, "km/h") == "20 km/h"
    ensures FormatWindSpeed(10.0, "km/h") == "36 km/h"
  {
  }

  lemma FormatWindSpeedExamplesMiles()
    ensures FormatWindSpeed(5.5, "mph") == "12 mph"
    ensures FormatWindSpeed(10.0, "mph") == "22 mph"
  {
  }

  // ---------------------------------------------------------------- wind direction

  const Directions: seq<string> := ["N", "NE", "E", "SE", "S", "SW", "W", "NW"]

  /**
   * JavaScript's `a % 8` on integers: the remainder keeps the sign of the dividend, unlike
   * Dafny's `%`, whose remainder is never negative.
   */
  function JsRem8(a: int): (r: int)
    ensures -8 < r < 8 && (a - r) % 8 == 0
    ensures a >= 0 ==> r >= 0
    ensures a <= 0 ==> r <= 0
  {
    if a >= 0 then a % 8 else -((-a) % 8)
  }

  /** The array index `getWindDirection` computes: `Math.round(degrees / 45) % 8`. */
  function WindIndex(degrees: real): int {
    JsRem8(Round(degrees / 45.0))
  }

  /**
   * `getWindDirection(degrees)`. A negative index reads `undefined` from the label array,
   * modelled as None.
   */
  function WindDirection(degrees: real): (r: Option<string>)
    ensures r.Some? ==> r.value in Directions
    ensures degrees >= 0.0 ==> r.Some?
  {
    var index := WindIndex(degrees);
    if 0 <= index < |Directions| then Some(Directions[index]) else None
  }

  /**
   * The compass sector of a direction: every angle within 22.5 degrees below and strictly
   * less than 22.5 degrees above the k-th multiple of 45 gets label k (modulo 8).
   */
  lemma WindDirectionSector(degrees: real, k: int)
    requires k >= 0
    requires 45.0 * k as real - 22.5 <= degrees < 45.0 * k as real + 22.5
    ensures WindDirection(degrees) == Some(Directions[k % 8])
  {
  }

  /** Exact multiples of 45 degrees name the eight compass points in order. */
  lemma WindDirectionCompassPoints(k: int)
    requires 0 <= k < 8
    ensures WindDirection(45.0 * k as real) == Some(Directions[k])
  {
  }

  /** A direction exactly half-way between two points takes the next point clockwise. */
  lemma WindDirectionHalfwayRoundsUp(k: int)
    requires 0 <= k < 8
    ensures WindDirection(45.0 * k as real + 22.5) == Some(Directions[(k + 1) % 8])
  {
  }

  /** For non-negative angles, a full turn does not change the label. */
  lemma WindDirectionPeriodic(degrees: real)
    requires degrees >= 0.0
    ensures WindDirection(degrees + 360.0) == WindDirection(degrees)
  {
    var q := degrees / 45.0;
    var k := Round(q);
    assert degrees == 45.0 * q;
    assert 45.0 * k as real - 22.5 <= degrees < 45.0 * k as real + 22.5;
    assert k >= 0;
    WindDirectionSector(degrees, k);
    WindDirectionSector(degrees + 360.0, k + 8);
    assert (k + 8) % 8 == k % 8;
  }

  /**
   * Exactly when the lookup succeeds: for angles from -22.5 degrees up, and below that only
   * when the rounded index is a multiple of 8.
   */
  lemma WindDirectionDefined(degrees: real)
    ensures WindDirection(degrees).Some? <==> degrees >= -22.5 || Round(degrees / 45.0) % 8 == 0
  {
  }

  /** Below -22.5 degrees the full-turn property fails: -90 has no label while 270 is "W". */
  lemma WindDirectionNegativeCounterexample()
    ensures WindDirection(-90.0) == None
    ensures WindDirection(-90.0 + 360.0) == Some("W")
  {
  }

  /**
   * The label the lookup evidently intends for every angle: the rounded index taken modulo 8
   * with a non-negative remainder, so that a negative angle names the same point as the angle
   * a full turn above it.
   */
  function CompassDirection(degrees: real): (point: string)
    ensures point in Directions
  {
    Directions[Round(degrees / 45.0) % 8]
  }

  /** Wherever the lookup as written succeeds, it gives the corrected label. */
  lemma CompassDirectionAgrees(degrees: real)
    ensures WindDirection(degrees).Some? ==> WindDirection(degrees) == Some(CompassDirection(degrees))
  {
  }

  /** The corrected label names the sector around every multiple of 45 degrees, negative ones included. */
  lemma CompassDirectionSector(degrees: real, k: int)
    requires 45.0 * k as real - 22.5 <= degrees < 45.0 * k as real + 22.5
    ensures CompassDirection(degrees) == Directions[k % 8]
  {
  }

  /** For every angle, a full turn does not change the corrected label. */
  lemma CompassDirectionPeriodic(degrees: real)
    ensures CompassDirection(degrees + 360.0) == CompassDirection(degrees)
  {
    var q := degrees / 45.0;
    var k := Round(q);
    assert degrees == 45.0 * q;
    assert 45.0 * k as real - 22.5 <= degrees < 45.0 * k as real + 22.5;
    CompassDirectionSector(degrees, k);
    CompassDirectionSector(degrees + 360.0, k + 8);
    assert (k + 8) % 8 == k % 8;
  }

  /** The corrected label of -90 degrees is "W", the label of 270 degrees. */
  lemma CompassDirectionWest()
    ensures CompassDirection(-90.0) == "W" && CompassDirection(270.0) == "W"
  {
  }

  /**
   * The directions the utility tests check. 22.5 degrees gives "NE": `Math.round(0.5)` is 1,
   * while the test at that line expects "N".
   */
  lemma WindDirectionExamples()
    ensures WindDirection(0.0) == Some("N") && WindDirection(45.0) == Some("NE")
    ensures WindDirection(90.0) == Some("E") && WindDirection(135.0) == Some("SE")
    ensures WindDirection(180.0) == Some("S") && WindDirection(225.0) == Some("SW")
    ensures WindDirection(270.0) == Some("W") && WindDirection(315.0) == Some("NW")
    ensures WindDirection(360.0) == Some("N")
    ensures WindDirection(22.5) == Some("NE")
    ensures WindDirection(67.5) == Some("E")
  {
    WindDirectionCompassPoints(0);
    WindDirectionCompassPoints(1);
    WindDirectionCompassPoints(2);
    WindDirectionCompassPoints(3);
    WindDirectionCompassPoints(4);
    WindDirectionCompassPoints(5);
    WindDirectionCompassPoints(6);
    WindDirectionCompassPoints(7);
    WindDirectionSector(360.0, 8);
    WindDirectionHalfwayRoundsUp(0);
    WindDirectionHalfwayRoundsUp(1);
  }

  // ---------------------------------------------------------------- icon URL

  const IconUrlPrefix := "https://openweathermap.org/img/wn/"
  const IconUrlSuffix := "@2x.png"

  /** `getWeatherIconUrl(iconCode)`: the code, unchecked, between a fixed prefix and suffix. */
  function IconUrl(iconCode: string): (url: string)
    ensures |url| == |IconUrlPrefix| + |iconCode| + |IconUrlSuffix|
  {
    IconUrlPrefix + iconCode + IconUrlSuffix
  }

  /** Recovers the icon code from an icon URL; None for a string of another shape. */
  function IconCodeOfUrl(url: string): Option<string> {
    var p, s := |IconUrlPrefix|, |IconUrlSuffix|;
    if |url| >= p + s && url[..p] == IconUrlPrefix && url[|url| - s..] == IconUrlSuffix then
      Some(url[p..|url| - s])
    else
      None
  }

  lemma IconUrlRoundTrip(iconCode: string)
    ensures IconCodeOfUrl(IconUrl(iconCode)) == Some(iconCode)
  {
  }

  /** Every string the decoder accepts is the icon URL of the code it returns. */
  lemma IconCodeOfUrlSound(url: string)
    requires IconCodeOfUrl(url).Some?
    ensures IconUrl(IconCodeOfUrl(url).value) == url
  {
  }

  /** Distinct icon codes give distinct URLs. */
  lemma IconUrlInjective(a: string, b: string)
    ensures IconUrl(a) == IconUrl(b) ==> a == b
  {
    IconUrlRoundTrip(a);
    IconUrlRoundTrip(b);
  }

  lemma IconUrlExamples()
    ensures IconUrl("01d") == "https://openweathermap.org/img/wn/01d@2x.png"
    ensures IconUrl("10n") == "https://openweathermap.org/img/wn/10n@2x.png"
  {
  }

  // ---------------------------------------------------------------- request failures

  /** The two requests of a lookup. */
  datatype Resource = CurrentWeatherData | ForecastData

  /**
   * Why a request failed. HttpFailure: the response was not ok and its body was read;
   * `payloadMessage` is the `message` field of the body (None when the body is not JSON, so
   * `.catch(() => ({}))` gives an empty object, or when it is a JSON object without such a field).
   * TransportFailure: anything thrown inside the `try` other than the `WeatherAPIError` built
   * for a non-ok response: the fetch itself failing, an ok response whose body is not valid
   * JSON, and so on; `cause` is the thrown value's message when it is an Error, None
   * otherwise. A non-ok body that is the JSON
   * text `null` belongs here: reading `errorData.message` of `null` throws a TypeError inside
   * the `try`, and the catch turns it into a network error without a status.
   */
  datatype RequestFailure =
    | HttpFailure(status: int, statusText: string, payloadMessage: Option<string>)
    | TransportFailure(cause: Option<string>)

  /** A `WeatherAPIError`: a message and, for HTTP failures, the response status. */
  datatype WeatherApiError = WeatherApiError(message: string, status: Option<int>)

  /** The fallback text each request uses when the provider supplies no message. */
  function FallbackPrefix(resource: Resource): (prefix: string)
    ensures |prefix| > 16 && prefix[..16] == "Failed to fetch " && prefix[|prefix| - 2..] == ": "
    ensures resource == CurrentWeatherData ==> prefix == "Failed to fetch weather data: "
    ensures resource == ForecastData ==> prefix == "Failed to fetch forecast data: "
  {
    match resource
    case CurrentWeatherData => "Failed to fetch weather data: "
    case ForecastData => "Failed to fetch forecast data: "
  }

  /**
   * The error a failed request throws. A non-empty provider message is passed on verbatim
   * (`errorData.message || ...` treats an empty message as missing); otherwise the message
   * names the request and the status text. Anything thrown on the way becomes a network error.
   */
  function RequestError(resource: Resource, failure: RequestFailure): (e: WeatherApiError)
    ensures failure.HttpFailure? ==> e.status == Some(failure.status)
    ensures failure.TransportFailure? ==> e.status == None
    ensures e.message != ""
  {
    match failure
    case HttpFailure(status, statusText, payloadMessage) =>
      var message :=
        if payloadMessage.Some? && payloadMessage.value != "" then payloadMessage.value
        else FallbackPrefix(resource) + statusText;
      WeatherApiError(message, Some(status))
    case TransportFailure(cause) =>
      WeatherApiError("Network error: " + cause.GetOr("Unknown error"), None)
  }

  /** A provider message is preferred exactly when it is present and non-empty. */
  lemma RequestErrorPrefersProviderMessage(resource: Resource, status: int, statusText: string, payloadMessage: Option<string>)
    ensures var e := RequestError(resource, HttpFailure(status, statusText, payloadMessage));
            if payloadMessage.Some? && payloadMessage.value != "" then e.message == payloadMessage.value
            else e.message == FallbackPrefix(resource) + statusText
  {
  }

  /**
   * A non-ok response whose body is `null`: the TypeError raised by reading its `message`
   * becomes a network error, so neither the fallback text nor the status reaches the caller.
   */
  lemma RequestErrorNullBody(resource: Resource, typeErrorMessage: string)
    ensures var e := RequestError(resource, TransportFailure(Some(typeErrorMessage)));
            e == WeatherApiError("Network error: " + typeErrorMessage, None)
  {
  }

  // ---------------------------------------------------------------- joining the two requests

  /**
   * `fetchWeatherData(city)` of the client: both requests run together and the lookup
   * succeeds only if both do. When both fail, the error of whichever failed first in time
   * surfaces; `currentFailsFirst` stands for that timing.
   */
  function FetchBoth(
    current: Result<CurrentWeather, RequestFailure>,
    forecast: Result<ForecastResponse, RequestFailure>,
    currentFailsFirst: bool): (r: Result<(CurrentWeather, ForecastResponse), WeatherApiError>)
    ensures r.Success? <==> current.Success? && forecast.Success?
    ensures r.Success? ==> r.value == (current.value, forecast.value)
    ensures r.Failure? ==>
              || (current.Failure? && r.error == RequestError(CurrentWeatherData, current.error))
              || (forecast.Failure? && r.error == RequestError(ForecastData, forecast.error))
  {
    match (current, forecast)
    case (Success(c), Success(f)) => Success((c, f))
    case (Failure(e), Success(_)) => Failure(RequestError(CurrentWeatherData, e))
    case (Success(_), Failure(e)) => Failure(RequestError(ForecastData, e))
    case (Failure(e1), Failure(e2)) =>
      if currentFailsFirst then Failure(RequestError(CurrentWeatherData, e1))
      else Failure(RequestError(ForecastData, e2))
  }
}
