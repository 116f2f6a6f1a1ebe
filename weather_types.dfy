/**
 * The records the weather provider returns, reduced to the fields the modelled code reads.
 * Temperatures are in degrees Celsius, speeds in metres per second, as the requests ask for
 * metric units.
 */
module WeatherTypes {

  /** One entry of a response's `weather` array: category (`main`), text and icon code. */
  datatype Condition = Condition(id: int, main: string, description: string, icon: string)

  /** Current conditions for one place (the `CurrentWeather` response). */
  datatype CurrentWeather = CurrentWeather(
    name: string,
    country: string,
    condition: Condition,
    temp: real,
    feelsLike: real,
    tempMin: real,
    tempMax: real,
    humidity: int,
    pressure: int,
    windSpeed: real,
    windDeg: real,
    visibility: int,
    cloudiness: int,
    sunrise: int,
    sunset: int)

  /**
   * One three-hourly forecast point. `weather` stands for `weather[0]`, the only entry of the
   * array that the forecast list reads; `temp` is `main.temp`; `pop` is the probability of
   * precipitation in 0..1.
   */
  datatype ForecastItem = ForecastItem(dt: int, dtTxt: string, temp: real, weather: Condition, pop: real)

  /** The forecast response; the store keeps only its `list`. */
  datatype ForecastResponse = ForecastResponse(list: seq<ForecastItem>)
}
