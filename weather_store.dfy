/**
 * The client's single state store: the latest lookup result, a loading flag, an error
 * message and the last searched city, changed only through its actions.
 */
module WeatherStore {
  import opened Wrappers
  import opened WeatherTypes
  import WeatherApi

  /** The five fields of the store, as a value. */
  datatype StoreState = StoreState(
    currentWeather: Option<CurrentWeather>,
    forecast: seq<ForecastItem>,
    loading: bool,
    error: Option<string>,
    searchQuery: string)

  const InitialState := StoreState(None, [], false, None, "")

  /** What the store's message falls back to when the thrown value is not an Error. */
  const GenericFetchError := "Failed to fetch weather data"

  /** A value thrown by the lookup: an Error with its message, or anything else. */
  datatype Thrown = ErrorInstance(message: string) | NonError

  /** How the awaited lookup settled: with both responses, or by throwing. */
  datatype FetchOutcome = Fetched(current: CurrentWeather, forecast: ForecastResponse) | Threw(thrown: Thrown)

  /**
   * The outcome the store sees from the client's lookup: a `WeatherAPIError` is an Error,
   * so its message is what the store receives.
   */
  function OutcomeOf(r: Result<(CurrentWeather, ForecastResponse), WeatherApi.WeatherApiError>): (o: FetchOutcome)
    ensures o.Fetched? <==> r.Success?
    ensures r.Success? ==> o == Fetched(r.value.0, r.value.1)
    ensures r.Failure? ==> o.thrown == ErrorInstance(r.error.message)
  {
    match r
    case Success((c, f)) => Fetched(c, f)
    case Failure(e) => Threw(ErrorInstance(e.message))
  }

  /** `error instanceof Error ? error.message : 'Failed to fetch weather data'`. */
  function ErrorMessageOf(thrown: Thrown): (m: string)
    ensures thrown.ErrorInstance? ==> m == thrown.message
    ensures thrown.NonError? ==> m == GenericFetchError
  {
    match thrown
    case ErrorInstance(message) => message
    case NonError => GenericFetchError
  }

  /** `clearWeatherData()`: empties every field but the loading flag. */
  function Cleared(s: StoreState): (r: StoreState)
    ensures r.currentWeather == None && r.forecast == [] && r.error == None && r.searchQuery == ""
    ensures r.loading == s.loading
  {
    s.(currentWeather := None, forecast := [], error := None, searchQuery := "")
  }

  /** The part of `fetchWeatherData(city)` before the await. */
  function Started(s: StoreState, city: string): (r: StoreState)
    ensures r.loading && r.error == None && r.searchQuery == city
    ensures r.currentWeather == s.currentWeather && r.forecast == s.forecast
  {
    s.(loading := true, error := None, searchQuery := city)
  }

  /** The part of `fetchWeatherData(city)` after the await: the try or catch branch, then `finally`. */
  function Finished(s: StoreState, outcome: FetchOutcome): (r: StoreState)
    ensures !r.loading && r.searchQuery == s.searchQuery
    ensures outcome.Fetched? ==> r.currentWeather == Some(outcome.current) && r.forecast == outcome.forecast.list && r.error == s.error
    ensures outcome.Threw? ==> r.currentWeather == s.currentWeather && r.forecast == s.forecast && r.error == Some(ErrorMessageOf(outcome.thrown))
  {
    match outcome
    case Fetched(current, forecast) => s.(currentWeather := Some(current), forecast := forecast.list, loading := false)
    case Threw(thrown) => s.(error := Some(ErrorMessageOf(thrown)), loading := false)
  }

  /**
   * One whole `fetchWeatherData(city)`. Nothing escapes it: whatever the outcome, loading ends
   * false and the search query is the city; the error is cleared exactly when the lookup
   * succeeded, and a failure keeps the previous weather and forecast.
   */
  function AfterFetch(s: StoreState, city: string, outcome: FetchOutcome): (r: StoreState)
    ensures !r.loading && r.searchQuery == city
    ensures r.error.None? <==> outcome.Fetched?
    ensures outcome.Fetched? ==> r.currentWeather == Some(outcome.current) && r.forecast == outcome.forecast.list
    ensures outcome.Threw? ==> r.currentWeather == s.currentWeather && r.forecast == s.forecast && r.error == Some(ErrorMessageOf(outcome.thrown))
  {
    Finished(Started(s, city), outcome)
  }

  /** Clearing twice is clearing once, and clearing the initial state leaves it as it is. */
  lemma ClearedIdempotent(s: StoreState)
    ensures Cleared(Cleared(s)) == Cleared(s)
    ensures Cleared(InitialState) == InitialState
  {
  }

  /**
   * Repeating a lookup that settles the same way changes nothing more: a failure keeps the
   * data shown before the first attempt, a success shows the same data again.
   */
  lemma FetchRepeatable(s: StoreState, city: string, outcome: FetchOutcome)
    ensures AfterFetch(AfterFetch(s, city, outcome), city, outcome) == AfterFetch(s, city, outcome)
  {
  }

  /** The store's own failure scenario: a rejected lookup's message becomes the error. */
  lemma FetchErrorExample(s: StoreState)
    ensures var r := AfterFetch(s, "Invalid City", Threw(ErrorInstance("City not found")));
            r.error == Some("City not found") && !r.loading && r.searchQuery == "Invalid City"
  {
  }

  /**
   * A failed request of the client leaves exactly the client's error message in the store.
   * That message is never empty, and the page shows the error only when it is a non-empty
   * string, so it never hides a failure.
   */
  lemma FailedRequestIsReported(
    s: StoreState, city: string,
    current: Result<CurrentWeather, WeatherApi.RequestFailure>,
    forecast: Result<ForecastResponse, WeatherApi.RequestFailure>,
    currentFailsFirst: bool)
    requires current.Failure? || forecast.Failure?
    ensures var r := AfterFetch(s, city, OutcomeOf(WeatherApi.FetchBoth(current, forecast, currentFailsFirst)));
            && r.error == Some(WeatherApi.FetchBoth(current, forecast, currentFailsFirst).error.message)
            && r.error.value != "" && !r.loading
  {
  }

  /**
   * A lookup whose two requests both succeed shows exactly their data: the current weather,
   * the forecast's item list, no error, and loading off.
   */
  lemma SuccessfulLookupIsShown(
    s: StoreState, city: string,
    current: Result<CurrentWeather, WeatherApi.RequestFailure>,
    forecast: Result<ForecastResponse, WeatherApi.RequestFailure>,
    currentFailsFirst: bool)
    requires current.Success? && forecast.Success?
    ensures var r := AfterFetch(s, city, OutcomeOf(WeatherApi.FetchBoth(current, forecast, currentFailsFirst)));
            && r.currentWeather == Some(current.value)
            && r.forecast == forecast.value.list
            && r.error == None && !r.loading && r.searchQuery == city
  {
  }

  /** The store: the five fields, updated in place by its actions. */
  class Store {
    var currentWeather: Option<CurrentWeather>
    var forecast: seq<ForecastItem>
    var loading: bool
    var error: Option<string>
    var searchQuery: string

    function State(): StoreState
      reads this
    {
      StoreState(currentWeather, forecast, loading, error, searchQuery)
    }

    constructor ()
      ensures State() == InitialState
    {
      currentWeather := None;
      forecast := [];
      loading := false;
      error := None;
      searchQuery := "";
    }

    method SetCurrentWeather(weather: Option<CurrentWeather>)
      modifies this
      ensures State() == old(State()).(currentWeather := weather)
    {
      currentWeather := weather;
    }

    method SetForecast(items: seq<ForecastItem>)
      modifies this
      ensures State() == old(State()).(forecast := items)
    {
      forecast := items;
    }

    method SetLoading(value: bool)
      modifies this
      ensures State() == old(State()).(loading := value)
    {
      loading := value;
    }

    method SetError(message: Option<string>)
      modifies this
      ensures State() == old(State()).(error := message)
    {
      error := message;
    }

    method SetSearchQuery(query: string)
      modifies this
      ensures State() == old(State()).(searchQuery := query)
    {
      searchQuery := query;
    }

    method ClearWeatherData()
      modifies this
      ensures State() == Cleared(old(State()))
    {
      currentWeather, forecast, error, searchQuery := None, [], None, "";
    }

    /** The synchronous start of `fetchWeatherData(city)`, through the setters in source order. */
    method StartFetch(city: string)
      modifies this
      ensures State() == Started(old(State()), city)
    {
      SetLoading(true);
      SetError(None);
      SetSearchQuery(city);
    }

    /** The continuation after the await: the success or error writes, then `finally`. */
    method FinishFetch(outcome: FetchOutcome)
      modifies this
      ensures State() == Finished(old(State()), outcome)
    {
      match outcome {
        case Fetched(current, response) =>
          SetCurrentWeather(Some(current));
          SetForecast(response.list);
        case Threw(thrown) =>
          SetError(Some(ErrorMessageOf(thrown)));
      }
      SetLoading(false);
    }

    /** One uninterrupted `fetchWeatherData(city)` whose awaited lookup settles with `outcome`. */
    method FetchWeatherData(city: string, outcome: FetchOutcome)
      modifies this
      ensures State() == AfterFetch(old(State()), city, outcome)
    {
      StartFetch(city);
      FinishFetch(outcome);
    }
  }
}
