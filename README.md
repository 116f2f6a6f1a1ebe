# WeatherWise core, modelled in Dafny

WeatherWise is a Next.js client for the OpenWeatherMap API. A user searches for a city. The
client requests the current weather and the five-day, three-hourly forecast. The result goes
into a single state store, and the page shows it as a weather card plus a forecast list. This
project models three parts of that client and proves properties about them:

- **The API client** (`src/lib/weather-api.ts`), in `weather_api.dfy`, modelled as pure functions:
  - temperature and wind-speed formatting;
  - the compass label of a wind direction;
  - the icon URL;
  - the message a failed request throws;
  - the join of the two requests.

  `numbers.dfy` models JavaScript's `Math.round` and the decimal rendering of an integer, with
  a parser as the rendering's partner.
- **The store** (`src/store/weather-store.ts`), in `weather_store.dfy`. It is a class with the
  five fields and the actions that assign them. Each setter is proved to replace its one field
  of `State()` and keep the other four. Every other action is proved to move `State()` by a
  pure transition function: `Cleared`, `Started`, `Finished` or `AfterFetch`. The properties
  are proved about those functions.
- **The forecast list computations** (`src/components/ForecastList.tsx`), in
  `forecast_list.dfy`:
  - grouping items by day, and counting condition categories, are loops over string-keyed
    objects, modelled as methods with `map` and key-order state;
  - each day's temperature range, the most-common-condition choice and the icon table are
    functions;
  - which days (the first five) and which hours (the first eight of the first day) are shown.

  `keyed_seqs.dfy` holds the generic theory both loops rely on:
  - the order of keys by first occurrence;
  - the selection of the elements with one key;
  - the appended and counted objects as folds;
  - `Array.prototype.find`.

`weather_types.dfy` holds the data shapes. `wrappers.dfy` holds `Option` and `Result`.

Some modelling choices:
- Temperatures, speeds and angles are unbounded reals.
- `Math.round(x)` is `floor(x + 0.5)`.
- `${n}` renders an integer in plain decimal.
- A unit argument is any string, so the `default` branch of `formatWindSpeed` and the non-`'F'`
  branch of `formatTemperature` are reachable.
- JavaScript objects built by the two reduces list their keys in insertion order. Day strings and
  condition categories are never integer-like, so insertion order holds. These objects become a
  `map` plus the sequence of its keys.
- A forecast item keeps one temperature (`main.temp`) and one condition (`weather[0]`).

The code and its tests disagree in one place: `weather-api.test.ts` expects 22.5 degrees to
read "N", but `Math.round(0.5)` is 1, so the code gives "NE". The model follows the code, and
`WindDirectionExamples` states "NE".

## Model

| member | source | states |
|---|---|---|
| Numbers.Round | src/lib/weather-api.ts:120 | `Math.round` lands within one half of its argument, with halves rounding up |
| Numbers.NatString | src/lib/weather-api.ts:120 | the decimal rendering of a natural number is non-empty, all digits, and has no leading zero |
| Numbers.IntString | src/lib/weather-api.ts:120 | the rendering of an integer is non-empty and starts with "-" exactly for negative numbers |
| Numbers.NatStringValue | src/lib/weather-api.ts:120 | the digits of a rendered natural number read back as that number |
| Numbers.IntStringRoundTrip | src/lib/weather-api.ts:120 | parsing the rendering of any integer gives the integer back |
| Numbers.IntStringInjective | src/lib/weather-api.ts:120 | distinct integers render differently |
| WeatherApi.ToFahrenheit | src/lib/weather-api.ts:119 | the Fahrenheit value converts back to the Celsius value, so the conversion is exact and invertible |
| WeatherApi.FormatTemperature | src/lib/weather-api.ts:117-123 | the text ends in "°F" exactly for unit "F", and in "°C" otherwise |
| WeatherApi.FormatTemperatureReading | src/lib/weather-api.ts:117-123 | the text before the unit is the plain decimal rendering (no leading zero, "-" only for negatives) of an integer within one half of the temperature, converted to Fahrenheit for "F" |
| WeatherApi.FormatTemperatureExamplesCelsius | src/lib/__tests__/weather-api.test.ts:10-14 | 25.7, 0 and -5.3 read "26°C", "0°C" and "-5°C" |
| WeatherApi.FormatTemperatureExamplesFahrenheit | src/lib/__tests__/weather-api.test.ts:16-20 | 25, 0 and -5 read "77°F", "32°F" and "23°F" |
| WeatherApi.FormatWindSpeed | src/lib/weather-api.ts:131-140 | the text ends in " km/h", " mph" or " m/s" according to the unit, with " m/s" for any other unit |
| WeatherApi.FormatWindSpeedReading | src/lib/weather-api.ts:131-140 | the text before the suffix is the plain decimal rendering of an integer within one half of the speed scaled by 3.6, 2.237 or 1 |
| WeatherApi.FormatWindSpeedDefault | src/lib/weather-api.ts:137-138 | any unit other than "km/h" and "mph" formats exactly as "m/s" |
| WeatherApi.FormatWindSpeedExamplesMetres | src/lib/__tests__/weather-api.test.ts:24-27 | 5.5 and 0 m/s read "6 m/s" and "0 m/s" |
| WeatherApi.FormatWindSpeedExamplesKilometres | src/lib/__tests__/weather-api.test.ts:29-32 | 5.5 and 10 m/s read "20 km/h" and "36 km/h" |
| WeatherApi.FormatWindSpeedExamplesMiles | src/lib/__tests__/weather-api.test.ts:34-37 | 5.5 and 10 m/s read "12 mph" and "22 mph" |
| WeatherApi.JsRem8 | src/lib/weather-api.ts:149 | JavaScript's `% 8` differs from its argument by a multiple of 8, lies strictly between -8 and 8, and keeps the argument's sign |
| WeatherApi.WindDirection | src/lib/weather-api.ts:147-151 | any label returned is one of the eight points, and every non-negative angle has a label |
| WeatherApi.WindDirectionSector | src/lib/weather-api.ts:147-151 | every angle from 22.5 degrees below up to (excluding) 22.5 degrees above 45k, for k >= 0, gets point k mod 8 |
| WeatherApi.WindDirectionCompassPoints | src/lib/weather-api.ts:147-151 | the multiples 0, 45, ..., 315 name N, NE, ..., NW in order |
| WeatherApi.WindDirectionHalfwayRoundsUp | src/lib/weather-api.ts:147-151 | an angle half-way between two points takes the next point clockwise |
| WeatherApi.WindDirectionPeriodic | src/lib/weather-api.ts:147-151 | a full turn does not change the label of a non-negative angle |
| WeatherApi.WindDirectionDefined | src/lib/weather-api.ts:147-151 | a label exists exactly for angles from -22.5 up, or when the rounded index is a multiple of 8 |
| WeatherApi.WindDirectionNegativeCounterexample | src/lib/weather-api.ts:149-150 | -90 degrees has no label, although 270 degrees, a full turn on, is "W" |
| WeatherApi.WindDirectionExamples | src/lib/__tests__/weather-api.test.ts:41-56 | the eight compass points and 360 read as tested; 67.5 reads "E"; 22.5 reads "NE" |
| WeatherApi.CompassDirection | src/lib/weather-api.ts:147-151 | the corrected lookup always returns one of the eight points |
| WeatherApi.CompassDirectionAgrees | src/lib/weather-api.ts:147-151 | wherever the lookup as written gives a label, the corrected one gives the same |
| WeatherApi.CompassDirectionSector | src/lib/weather-api.ts:147-151 | the corrected lookup names the sector around every multiple of 45, negative ones included |
| WeatherApi.CompassDirectionPeriodic | src/lib/weather-api.ts:147-151 | a full turn does not change the corrected label of any angle |
| WeatherApi.CompassDirectionWest | src/lib/weather-api.ts:147-151 | the corrected label of -90 degrees is "W", the same as for 270 degrees |
| WeatherApi.IconUrl | src/lib/weather-api.ts:107-109 | the URL is the fixed prefix, the code and the fixed suffix, with nothing else |
| WeatherApi.IconUrlRoundTrip | src/lib/weather-api.ts:107-109 | the code is recovered from its URL |
| WeatherApi.IconCodeOfUrlSound | src/lib/weather-api.ts:107-109 | every URL the decoder accepts is the icon URL of the code it returns |
| WeatherApi.IconUrlInjective | src/lib/weather-api.ts:107-109 | distinct codes give distinct URLs |
| WeatherApi.IconUrlExamples | src/lib/__tests__/weather-api.test.ts:60-63 | "01d" and "10n" give the tested URLs |
| WeatherApi.FallbackPrefix | src/lib/weather-api.ts:32-62 | the current-weather request falls back to "Failed to fetch weather data: " and the forecast request to "Failed to fetch forecast data: ", each followed by the status text |
| WeatherApi.RequestError | src/lib/weather-api.ts:29-44 | an HTTP failure keeps its status, a network failure has none, and the message is never empty |
| WeatherApi.RequestErrorPrefersProviderMessage | src/lib/weather-api.ts:31-32 | the provider's message is used exactly when present and non-empty; otherwise the request's own prefix and the status text |
| WeatherApi.RequestErrorNullBody | src/lib/weather-api.ts:29-43 | a non-ok response whose body is `null` ends as a network error carrying the TypeError's message and no status |
| WeatherApi.FetchBoth | src/lib/weather-api.ts:83-100 | the lookup succeeds exactly when both requests do, with both responses; otherwise it fails with the error of a request that failed |
| WeatherStore.OutcomeOf | src/lib/weather-api.ts:94-97 | the store sees a success exactly when the lookup succeeds, and then receives the lookup's own current weather and forecast; on failure an Error carrying the client's message |
| WeatherStore.ErrorMessageOf | src/store/weather-store.ts:38 | an Error is reported by its own message; any other thrown value as "Failed to fetch weather data" |
| WeatherStore.Cleared | src/store/weather-store.ts:47-52 | clearing empties the weather, forecast, error and query, and leaves the loading flag alone |
| WeatherStore.Started | src/store/weather-store.ts:29-31 | starting a lookup sets loading, clears the error, records the city and keeps the shown data |
| WeatherStore.Finished | src/store/weather-store.ts:33-43 | settling clears loading; a success replaces weather and forecast, a failure keeps them and sets the error message |
| WeatherStore.AfterFetch | src/store/weather-store.ts:25-44 | after a lookup, loading is off, the query is the city, an error is set exactly when it failed, and the data are replaced exactly on success |
| WeatherStore.ClearedIdempotent | src/store/weather-store.ts:47-52 | clearing twice equals clearing once, and clearing the initial state changes nothing |
| WeatherStore.FetchRepeatable | src/store/weather-store.ts:25-44 | repeating a lookup that settles the same way leaves the same state |
| WeatherStore.FetchErrorExample | src/store/__tests__/weather-store.test.ts:178-193 | a lookup rejected with "City not found" leaves that error, loading off and the city as the query |
| WeatherStore.FailedRequestIsReported | src/store/weather-store.ts:37-42 | whenever either request fails, the store's error is exactly the client's error message, which is non-empty, and loading is off |
| WeatherStore.SuccessfulLookupIsShown | src/store/weather-store.ts:33-36 | when both requests succeed, the store shows exactly their current weather and forecast items, with no error and loading off |
| WeatherStore.Store.constructor | src/store/weather-store.ts:7-11 | the store starts with no weather, no forecast, not loading, no error and an empty query |
| WeatherStore.Store.SetCurrentWeather | src/store/weather-store.ts:14 | only the current weather changes |
| WeatherStore.Store.SetForecast | src/store/weather-store.ts:16 | only the forecast changes |
| WeatherStore.Store.SetLoading | src/store/weather-store.ts:18 | only the loading flag changes |
| WeatherStore.Store.SetError | src/store/weather-store.ts:20 | only the error changes |
| WeatherStore.Store.SetSearchQuery | src/store/weather-store.ts:22 | only the query changes |
| WeatherStore.Store.ClearWeatherData | src/store/weather-store.ts:47-52 | the new state is the cleared old state |
| WeatherStore.Store.StartFetch | src/store/weather-store.ts:29-31 | the three setter calls before the await leave the started state |
| WeatherStore.Store.FinishFetch | src/store/weather-store.ts:33-43 | the writes after the await, and the `finally`, leave the finished state |
| WeatherStore.Store.FetchWeatherData | src/store/weather-store.ts:25-44 | one uninterrupted lookup leaves exactly the after-fetch state |
| KeyedSeqs.KeyOrder | src/components/ForecastList.tsx:15-22 | the object's keys in insertion order, as a value; KeyOrderMembers, KeyOrderStep, KeyOrderPrefix and KeyOrderFollowsFirstOccurrence state that they are the distinct keys in order of first occurrence |
| KeyedSeqs.Groups | src/components/ForecastList.tsx:15-22 | the grouping reduce as a fold; GroupsKeys, GroupsStep and GroupsAreSelections state that each key holds exactly its elements in input order |
| KeyedSeqs.Counts | src/components/ForecastList.tsx:81-84 | the counting reduce as a fold; CountsKeys, CountsStep and CountsAreSelectionSizes state that each key holds the number of its elements |
| KeyedSeqs.FindFirst | src/components/ForecastList.tsx:90 | `find` succeeds exactly when some element has the key, and returns the first such element |
| KeyedSeqs.KeyOrderMembers | src/components/ForecastList.tsx:17-18 | the listed keys are distinct, every element's key is listed, and each listed key is some element's |
| KeyedSeqs.KeyOrderStep | src/components/ForecastList.tsx:17-18 | one more element appends its key exactly when the key is new |
| KeyedSeqs.KeyOrderPrefix | src/components/ForecastList.tsx:15-22 | the keys of a prefix head the keys of the whole |
| KeyedSeqs.KeyOrderFollowsFirstOccurrence | src/components/ForecastList.tsx:15-22 | keys are listed in order of first occurrence |
| KeyedSeqs.SelectMembers | src/components/ForecastList.tsx:20 | a key's selection holds only elements of the input with that key |
| KeyedSeqs.SelectComplete | src/components/ForecastList.tsx:20 | every element belongs to its own key's selection |
| KeyedSeqs.SelectNonEmpty | src/components/ForecastList.tsx:17-20 | a key's selection is non-empty exactly when the key is listed |
| KeyedSeqs.SelectPrefix | src/components/ForecastList.tsx:20 | the selection from a prefix is a prefix of the selection from the whole |
| KeyedSeqs.SelectedCountAppend | src/components/ForecastList.tsx:20 | one more element adds one to the selections of the listed keys exactly when its key is listed |
| KeyedSeqs.SelectionsPartition | src/components/ForecastList.tsx:15-22 | the selections of the listed keys add up to the input's length |
| KeyedSeqs.GroupsKeys | src/components/ForecastList.tsx:17-19 | the appended object's keys are the listed keys |
| KeyedSeqs.GroupsStep | src/components/ForecastList.tsx:17-20 | one more element is appended under its key, creating the entry when missing |
| KeyedSeqs.GroupsAreSelections | src/components/ForecastList.tsx:15-22 | each entry of the appended object is exactly that key's selection |
| KeyedSeqs.CountsKeys | src/components/ForecastList.tsx:81-84 | the counted object's keys are the listed keys |
| KeyedSeqs.CountsStep | src/components/ForecastList.tsx:82 | one more element adds one to its key's count, starting from 0 |
| KeyedSeqs.CountsAreSelectionSizes | src/components/ForecastList.tsx:81-84 | each count is the size of that key's selection |
| ForecastList.GroupForecast | src/components/ForecastList.tsx:15-22 | the loop builds exactly the appended object and its insertion-ordered keys |
| ForecastList.GroupingPartitions | src/components/ForecastList.tsx:15-22 | keys are distinct days; every item is in its own day's group; groups hold only their day's items and are non-empty; sizes add up to the item count |
| ForecastList.DaysInFirstAppearanceOrder | src/components/ForecastList.tsx:15-22 | days are listed in the order they first occur in the forecast |
| ForecastList.GroupsKeepInputOrder | src/components/ForecastList.tsx:15-22 | grouping a prefix gives a prefix of the days and, for each day, a prefix of its group |
| ForecastList.MinTemp | src/components/ForecastList.tsx:74 | the minimum is some item's temperature and bounds all of them from below |
| ForecastList.MaxTemp | src/components/ForecastList.tsx:75 | the maximum is some item's temperature and bounds all of them from above |
| ForecastList.MinMaxTemp | src/components/ForecastList.tsx:71-77 | both ends are attained, and every temperature of the day lies between them |
| ForecastList.Conditions | src/components/ForecastList.tsx:80 | one condition per item, in order |
| ForecastList.CountConditions | src/components/ForecastList.tsx:81-84 | the loop builds exactly the counted object and its insertion-ordered keys |
| ForecastList.CountConditionsCounts | src/components/ForecastList.tsx:81-84 | every category that occurs is counted, with its number of items, which is positive |
| ForecastList.LastMaximumStep | src/components/ForecastList.tsx:86-88 | one step of the `>` reduce keeps the accumulator the last entry with the greatest count |
| ForecastList.PickMostCommon | src/components/ForecastList.tsx:86-88 | the reduce picks an entry with the greatest count, after which every entry has a strictly smaller count |
| ForecastList.MostCommonMain | src/components/ForecastList.tsx:86-88 | the category the reduce picks; MostCommonMainOccurs, MostCommonMainIsMaximal and MostCommonMainTieBreak state that it occurs, has the greatest count and wins ties by appearing last |
| ForecastList.MostCommonCondition | src/components/ForecastList.tsx:79-91 | the day's condition as a value; MostCommonConditionPosition and MostCommonConditionChoice state which condition it is |
| ForecastList.GetMostCommonCondition | src/components/ForecastList.tsx:79-91 | mapping, counting, reducing and finding compute the most common condition |
| ForecastList.MostCommonMainOccurs | src/components/ForecastList.tsx:86-88 | the picked category is some condition's category |
| ForecastList.MostCommonMainIsMaximal | src/components/ForecastList.tsx:86-88 | no category occurs more often than the picked one |
| ForecastList.MostCommonMainTieBreak | src/components/ForecastList.tsx:86-88 | every category tied with the picked one has appeared by the picked category's first item |
| ForecastList.MostCommonConditionPosition | src/components/ForecastList.tsx:90 | the chosen condition is that of the first item of the picked category |
| ForecastList.MostCommonConditionChoice | src/components/ForecastList.tsx:79-91 | the chosen condition belongs to a most frequent category, and is the first item's condition of that category; among tied categories, the one whose first item comes last wins |
| ForecastList.SummariseDay | src/components/ForecastList.tsx:104-133 | a row keeps its day, a range bounding every temperature of the day, one of the day's conditions, and the first item's rain chance rounded to a whole percent |
| ForecastList.DaySummaries | src/components/ForecastList.tsx:103-105 | one row for each of the first five days, in order; each row's range is the day's MinMaxTemp, its condition the day's MostCommonCondition, and its rain chance the first item's `pop` rounded in percent |
| ForecastList.GroupsCanBeSummarised | src/components/ForecastList.tsx:103-104 | every day of the grouped forecast has a non-empty group, so each row is defined |
| ForecastList.HourlyStrip | src/components/ForecastList.tsx:143-148 | at most eight items, taken from the front of the first day's group; nothing when no day is listed |
| ForecastList.HourlyStripIsFirstDay | src/components/ForecastList.tsx:143-148 | for a non-empty forecast, the strip is the first eight (or all) items of the first item's day, and is never empty |
| ForecastList.WeatherIcon | src/components/ForecastList.tsx:44 | a provider icon code missing from the table falls back to the cloud icon (inherited object keys are under "## Left out") |
| ForecastList.DayAndNightIconsAgree | src/components/ForecastList.tsx:25-42 | the day and night variants of every code get the same icon |

## Findings

| source | as written | input that shows it | evidently intended | confidence | as-written member | corrected member |
|---|---|---|---|---|---|---|
| src/lib/weather-api.ts:149-150 | `Math.round(degrees / 45) % 8` keeps the sign of a negative quotient, so the array index can be negative | degrees = -90: index -2, `directions[-2]` is `undefined`, while 270 degrees gives "W" | the index taken modulo 8 with a non-negative remainder, so -90 gives "W" | not executed; medium (the provider reports 0 to 360 degrees, so only a negative caller argument shows it) | WeatherApi.WindDirectionNegativeCounterexample | WeatherApi.CompassDirection |

## Left out

- HTTP requests, URL building with `encodeURIComponent`, the API key, and JSON decoding are left out. Each request's result is a parameter: a `Result` of the response or a `RequestFailure`.
- The check that throws at module load when the API key is missing is I/O on the environment and is not modelled.
- FetchBoth: `Promise.all` rejects with whichever request fails first in time. That timing is the `currentFailsFirst` parameter.
- The wrapping catch at weather-api.ts:98 is not modelled. Both requests only ever throw a `WeatherAPIError`, so it is unreachable.
- RequestError: a non-string `message` in an error body is not modelled. The payload message is an optional string.
- Store.FetchWeatherData models one lookup from start to finish. Two lookups whose awaits interleave are not modelled. `StartFetch` and `FinishFetch` are the two halves such an interleaving would be built from.
- `console.error` in the store's catch is logging and is not modelled.
- Conditions, CountConditions, WeatherIcon: a forecast item has exactly one condition, standing for `weather[0]`. Items are assumed to have a non-empty `weather` array. An item with an empty one makes `condition.main` (ForecastList.tsx:82) and `item.weather[0].icon` throw, so the list fails to render; that failure is not modelled.
- MinMaxTemp: requires a non-empty group. `Math.min()` of no values is `Infinity`, and that case is not modelled. Groups are never empty, as GroupingPartitions proves.
- DaySummaries: requires every listed day to have a non-empty group, rather than handling a missing key. GroupsCanBeSummarised proves this holds for the grouped forecast.
- DayOf: the day of an item (`new Date(dt_txt).toDateString()`) depends on the time zone, so it is a function parameter `dayKey`.
- `formatTime` and `formatDate` depend on the clock and the locale and are not modelled.
- Rendering, animation, and the icon components themselves are not modelled. An icon is a datatype constructor.
- FormatTemperature, FormatWindSpeed, WindDirection: numbers are exact reals, not IEEE doubles. Rounding error in `temp * 9 / 5 + 32` or `speed * 2.237` is not modelled. Neither is JavaScript's exponent notation for magnitudes of 10^21 and above.
- JavaScript objects list integer-like keys first; the model does not. Day strings and condition categories are never integer-like.
- GroupForecast, CountConditions: a key inherited from `Object.prototype`, such as a category named "constructor", is not modelled.
- WeatherIcon: `iconMap` is a plain object, so a code naming an inherited property ("constructor", "toString", "__proto__") finds that property, which is truthy, and the source does not fall back to the cloud icon; the model treats every code outside the table as missing and gives the cloud icon. OpenWeatherMap's icon codes are never such names.
- The weather card, search bar, page, loading spinner and error message components are outside this model.
