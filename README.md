# What-da-Weatha, modelled in Dafny

What-da-Weatha is a small weather dashboard with two parts. A React page
(`frontend/src/WeatherApp.jsx`) lets the user search a location and choose
°F or °C. It fetches a forecast and shows three things:
- the current conditions;
- an hourly strip;
- a five-day outlook that can be expanded and collapsed.

An Express route (`backend/routes/weather.js`) relays each request to the
Visual Crossing timeline API. It maps the unit to the provider's unit
group, and it passes the provider's JSON back unchanged or answers with a
fixed 500 error.

The model has seven modules, one file each:

- `JsValues` (`js_values.dfy`) covers the JavaScript value rules the page
  relies on:
  - `undefined` as `Option`;
  - numbers as finite or NaN;
  - truthiness, where `0`, `NaN` and `""` are falsy;
  - the `a || b` fallback;
  - how `${v}` prints a missing value.
- `Text` (`text.dfy`) holds the string operations:
  - `toLowerCase` and `includes`, with `includes` proved equal to an
    existential reference definition;
  - split-at-first and after-last helpers;
  - decimal rendering with its round trip.
- `Icons` (`icons.dfy`) is `getWeatherIcon`. It is written as the source's
  if-chain and proved equal to a first-match scan over a rule table that
  lists the keywords in source order.
- `HourLabel` (`hour_label.dfy`) is `formatTime`. It includes `parseInt` as
  JavaScript defines it (leading white space, sign, digit prefix, NaN) and
  the truncating `%`.
- `Forecast` (`forecast.dfy`) covers what the page derives from a payload:
  - the `||` fallbacks of the current-conditions panel;
  - the wind suffix;
  - the every-third-hour strip of at most seven cards;
  - the `days.slice(1, 6)` outlook, in its expanded and collapsed forms.
- `Dashboard` (`dashboard.dfy`) is the page's state machine, as the class
  `WeatherPage`:
  - its fields are the seven `useState` variables, plus the dependencies
    the effect last ran with and the fetch in flight;
  - its methods are the effect, fetch completion, the search form, the
    unit buttons and the outlook toggle;
  - `Render` is the gating of spinner, banner and dashboard.
- `Relay` (`relay.dfy`) is the backend route, written as a pure function of
  the query, the API key and the provider's reply.

Inputs from the outside world are parameters:
- the provider's reply and the relay's reply;
- the API key;
- the text the user types.

## Model

| member | source | states |
|---|---|---|
| JsValues.OrNum | frontend/src/WeatherApp.jsx:228 | the or-fallback on numbers: the result is `a` when `a` is present and truthy (not 0, not NaN), `b` otherwise |
| JsValues.OrText | frontend/src/WeatherApp.jsx:230 | the or-fallback on strings: the result is `a` when `a` is present and non-empty, `b` otherwise |
| JsValues.Interpolate | backend/routes/weather.js:12 | `${v}` prints the string itself, or "undefined" when the value is missing |
| Text.Lower | frontend/src/WeatherApp.jsx:45 | lower-casing keeps the length, maps each character on its own, turns each of A to Z into the matching lower-case letter and leaves every other character alone |
| Text.LowerIdempotent | frontend/src/WeatherApp.jsx:45 | lower-casing twice is lower-casing once |
| Text.Contains | frontend/src/WeatherApp.jsx:47 | `includes`: the part is a prefix of the text or is contained in its tail (equal to an occurrence at some position by Text.ContainsIffOccurs) |
| Text.ContainsIffOccurs | frontend/src/WeatherApp.jsx:47 | `includes` holds exactly when the part occurs at some position of the text |
| Text.ContainsLower | frontend/src/WeatherApp.jsx:45-47 | an occurrence survives lower-casing both strings |
| Text.NotContainsMissingChar | frontend/src/WeatherApp.jsx:47 | a text lacking any one letter of a keyword does not include the keyword |
| Text.DecimalRoundTrip | frontend/src/WeatherApp.jsx:89 | the decimal digits printed for a number read back as that number, with no leading zero |
| Icons.Normalize | frontend/src/WeatherApp.jsx:45 | a missing label becomes "", any other is lower-cased |
| Icons.WeatherIcon | frontend/src/WeatherApp.jsx:44-64 | the chain of tests; by Icons.WeatherIconIsFirstMatch it equals the first-match scan over the seven keyword rules in source order, with Sun when no rule fires |
| Icons.FirstMatchIsFirst | frontend/src/WeatherApp.jsx:47-63 | the scan returns the icon of the first rule that fires, and Sun when none fires |
| Icons.WeatherIconIsFirstMatch | frontend/src/WeatherApp.jsx:44-63 | the if-chain equals the first-match scan over the seven keyword rules in source order |
| Icons.IconOfFirstFiringRule | frontend/src/WeatherApp.jsx:47-60 | a label whose first firing rule is rule i gets rule i's icon |
| Icons.IconDefault | frontend/src/WeatherApp.jsx:63 | a label matching no keyword gets Sun |
| Icons.IconOfMissingLabel | frontend/src/WeatherApp.jsx:45 | a missing or empty label gets Sun |
| Icons.IconCaseInsensitive | frontend/src/WeatherApp.jsx:45 | labels that agree once lower-cased get the same icon |
| Icons.KeywordInAnyCaseFires | frontend/src/WeatherApp.jsx:45-59 | a keyword written in any case inside the label fires its rule |
| Icons.RainOutranksCloud | frontend/src/WeatherApp.jsx:49 | "Rain, Partially cloudy" gets the rain icon, because rain is tested before cloud |
| Icons.CloudyWhenNothingOutranks | frontend/src/WeatherApp.jsx:59 | a label whose lowered text contains "cloud" and fires none of the six rules tested before the cloud keywords gets Cloudy |
| Icons.NoEarlierRuleFires | frontend/src/WeatherApp.jsx:47-58 | a text lacking the letters s, e, n, f and z fires none of the six rules before the cloud keywords |
| Icons.PartiallyCloudyIsCloudy | frontend/src/WeatherApp.jsx:59 | "Partially cloudy" gets Cloudy |
| Icons.PartlySunnyIsSun | frontend/src/WeatherApp.jsx:47 | "Partly sunny" gets Sun, because sunny outranks part |
| HourLabel.TrimStart | frontend/src/WeatherApp.jsx:84 | `parseInt` skips exactly the leading JavaScript white space |
| HourLabel.DigitPrefix | frontend/src/WeatherApp.jsx:84 | `parseInt` reads the longest run of leading digits |
| HourLabel.ParseInt | frontend/src/WeatherApp.jsx:84 | the result is NaN exactly when no digit follows the white space and optional sign; a negative result comes from a leading minus |
| HourLabel.HourField | frontend/src/WeatherApp.jsx:83-84 | `split(':')[0]`: the longest prefix without a colon, followed by a colon unless it is the whole string |
| HourLabel.JsRem | frontend/src/WeatherApp.jsx:87 | JavaScript's `%` by a positive divisor: Dafny's remainder for a non-negative dividend, and a result strictly between -b and b whatever the sign |
| HourLabel.Hour12 | frontend/src/WeatherApp.jsx:87 | `hour % 12`, or 12 when that is falsy: never 0 and within -11..12; 12 for NaN; for a non-negative hour a clock number 1..12 agreeing with the hour modulo 12 |
| HourLabel.Meridiem | frontend/src/WeatherApp.jsx:86 | PM exactly when the hour is a number of at least 12, so NaN gives AM; the result is AM or PM |
| HourLabel.FormatTime | frontend/src/WeatherApp.jsx:80-90 | a missing or empty hour string gives ""; any other gives a label ending in AM or PM |
| HourLabel.ClockNumber | frontend/src/WeatherApp.jsx:87 | the clock number of a non-negative hour (12 in place of 0) lies in 1..12 and agrees with the hour modulo 12 |
| HourLabel.FormatTimeOfDigits | frontend/src/WeatherApp.jsx:80-90 | a digit hour field gives the clock number of that hour, then PM exactly when it is 12 or more |
| HourLabel.FormatTimeOfNaN | frontend/src/WeatherApp.jsx:84-89 | an hour field without digits gives "12AM" |
| HourLabel.FormatTimeOfNegative | frontend/src/WeatherApp.jsx:84-89 | a negative hour keeps its sign under JavaScript's `%` and is labelled AM |
| HourLabel.ClockLabelRoundTrip | frontend/src/WeatherApp.jsx:85-89 | each hour from 0 to 23 has its own label, and reading the label back gives the hour |
| HourLabel.LabelRoundTrip | frontend/src/WeatherApp.jsx:80-90 | `formatTime` of a digit hour field from 0 to 23 reads back as that hour |
| HourLabel.ClockLabelExamples | frontend/src/WeatherApp.jsx:85-89 | 0 gives 12AM, 12 gives 12PM, 13 gives 1PM, 14 gives 2PM, 23 gives 11PM |
| HourLabel.FormatTimeExamples | frontend/src/WeatherApp.jsx:80-90 | the hour strings "00:00:00", "12:00:00", "13:30:00", "14:00:00" and "23:00:00" are labelled 12AM, 12PM, 1PM, 2PM and 11PM |
| HourLabel.MidnightField | frontend/src/WeatherApp.jsx:83-84 | the hour field of "00:00:00" is the digits of 0 |
| HourLabel.NoonField | frontend/src/WeatherApp.jsx:83-84 | the hour field of "12:00:00" is the digits of 12 |
| HourLabel.HalfPastOneField | frontend/src/WeatherApp.jsx:83-84 | the hour field of "13:30:00" is the digits of 13 |
| HourLabel.TwoPMField | frontend/src/WeatherApp.jsx:83-84 | the hour field of "14:00:00" is the digits of 14 |
| HourLabel.ElevenPMField | frontend/src/WeatherApp.jsx:83-84 | the hour field of "23:00:00" is the digits of 23 |
| Forecast.JsSlice | frontend/src/WeatherApp.jsx:304 | `slice` clamps its end to the length and keeps the elements in order |
| Forecast.WindSuffix | frontend/src/WeatherApp.jsx:261 | the wind suffix is " mph" exactly when °F is selected, and " km/h" otherwise |
| Forecast.CurrentPanel | frontend/src/WeatherApp.jsx:228-287 | the panel's icon is the icon of the conditions it shows, and every reading carries the selected unit |
| Forecast.PanelWithoutCurrent | frontend/src/WeatherApp.jsx:228-287 | without `currentConditions`, every metric comes from today's entry |
| Forecast.PanelMetricSource | frontend/src/WeatherApp.jsx:228-287 | each metric is the current reading when it is present and truthy, today's value otherwise |
| Forecast.ZeroReadingFallsBack | frontend/src/WeatherApp.jsx:228-287 | a current reading of 0, or empty conditions, shows today's value instead |
| Forecast.EveryThird | frontend/src/WeatherApp.jsx:303 | the filter keeps the entries at indices 0, 3, 6 and so on, in order; that is ceil(n/3) of n entries |
| Forecast.HourlyStrip | frontend/src/WeatherApp.jsx:302-304 | the strip shows hours[3k] for k below min(7, ceil(n/3)), or nothing when hours are absent |
| Forecast.FullDayStrip | frontend/src/WeatherApp.jsx:302-304 | on a 24-hour day the strip shows hours 0, 3, 6, 9, 12, 15 and 18 |
| Forecast.HourCards | frontend/src/WeatherApp.jsx:305-330 | one card per selected hour, in order, each with its label, icon and temperature |
| Forecast.Outlook | frontend/src/WeatherApp.jsx:363 | the outlook is the days after today, at most five of them |
| Forecast.Rows | frontend/src/WeatherApp.jsx:363-384 | one row per outlook day, in order |
| Forecast.OutlookPanelOf | frontend/src/WeatherApp.jsx:355-418 | the expanded branch is shown exactly when `isExpanded` is set |
| Forecast.OutlookSameWhenToggled | frontend/src/WeatherApp.jsx:355-418 | both states of the toggle list the same rows: days 1 to 5, never today |
| Forecast.DashboardOf | frontend/src/WeatherApp.jsx:214-420 | at most 7 hourly cards, the card for hours[3k] in position k, at most 5 outlook rows, and the expansion flag honoured |
| Dashboard.WeatherPage.constructor | frontend/src/WeatherApp.jsx:7-13 | initial state: London,UK in both location and search box, °F, collapsed, no data, not loading, no error |
| Dashboard.WeatherPage.FetchDue | frontend/src/WeatherApp.jsx:34-36 | the effect is due exactly when the `[location, unit]` pair differs from the one it last ran with, or it has never run |
| Dashboard.WeatherPage.RunEffect | frontend/src/WeatherApp.jsx:34-36 | a fetch starts exactly when the location or unit changed since the last run; it sets loading, clears the error and keeps the old data |
| Dashboard.WeatherPage.CompleteFetch | frontend/src/WeatherApp.jsx:18-31 | success replaces the data; any failure sets the fixed message and keeps the old data; loading ends either way |
| Dashboard.WeatherPage.EditSearch | frontend/src/WeatherApp.jsx:169 | typing changes only the search box and starts no fetch |
| Dashboard.WeatherPage.SubmitSearch | frontend/src/WeatherApp.jsx:38-41 | submitting commits the search text as the location, and a fetch falls due exactly when it differs |
| Dashboard.WeatherPage.ChooseFahrenheit | frontend/src/WeatherApp.jsx:141 | the °F button selects °F, and a fetch falls due when the unit changes |
| Dashboard.WeatherPage.ChooseCelsius | frontend/src/WeatherApp.jsx:149 | the °C button selects °C, and a fetch falls due when the unit changes |
| Dashboard.WeatherPage.ToggleExpanded | frontend/src/WeatherApp.jsx:344 | the header flips the outlook between expanded and collapsed and starts no fetch |
| Dashboard.WeatherPage.Render | frontend/src/WeatherApp.jsx:188-214 | spinner iff loading; banner iff a non-empty error; dashboard iff data is present and not loading |
| Dashboard.Succeeds | frontend/src/WeatherApp.jsx:19-25 | the fetch takes the success path exactly when the response arrived, is ok and its body parses; every other outcome reaches the catch branch |
| Dashboard.RequestUrl | frontend/src/WeatherApp.jsx:19 | the relay request is the endpoint, the location as it is, `&unit=`, then the unit as it is |
| Dashboard.ParamsRoundTrip | backend/routes/weather.js:9 | the parameters after `loc=` give the location up to its first `&` and, for a unit without `&`, the whole unit; they split back into the location and the unit exactly when neither holds an `&` |
| Dashboard.RequestRoundTrip | frontend/src/WeatherApp.jsx:19 | for a location and unit without `#`: when the unit holds no `&`, the relay reads the location cut at its first `&` and the whole unit; it reads back the query the page sent exactly when neither holds an `&` |
| Dashboard.UnitButtonsSelectGroups | backend/routes/weather.js:10 | °F asks the provider for US units and °C for metric units |
| Dashboard.SwitchToCelsius | frontend/src/WeatherApp.jsx:34-36 | after the first load the effect stays quiet; pressing °C starts exactly one new fetch, for metric units |
| Dashboard.FailedSearchKeepsForecast | frontend/src/WeatherApp.jsx:27-28 | a failed search after a successful load shows the error banner together with the old dashboard |
| Relay.UnitGroup | backend/routes/weather.js:10 | the unit group is "us" exactly when the unit is °F, and "metric" otherwise, including when the unit is missing |
| Relay.ProviderUrl | backend/routes/weather.js:12 | the URL is exactly the timeline base, the location verbatim, `?key=` and the key ("undefined" when missing), then `&unitGroup=` and the unit group, each pinned by position and the total length |
| Relay.Handle | backend/routes/weather.js:14-21 | exactly one provider request; status 200 with the provider's JSON exactly when a body parses; otherwise 500 with the fixed error body |
| Relay.StatusNotInspected | backend/routes/weather.js:15-17 | the provider's status code is ignored: any parsed body is relayed with 200 |
| Relay.FailureIsUniform | backend/routes/weather.js:18-21 | every failure gives the same 500 response, whatever the error |
| Relay.UnitGroupReachesProvider | backend/routes/weather.js:12 | when neither the location nor the key holds a `#`, the provider receives the unit group as the last parameter; when the location has a `#` before any `?`, the provider receives no query at all, so neither key nor unit group |
| Relay.LocationReachesProvider | backend/routes/weather.js:12 | the provider receives the location up to its first `#` and then up to its first `?`: the whole location when it holds neither, and a strictly shorter text when it holds either |
| Relay.KeyReachesProvider | backend/routes/weather.js:12 | when the location holds neither `?` nor `#` and the key no `#`, the provider receives the key up to its first `&`, so the whole key when it holds none |
| Relay.MissingParameters | backend/routes/weather.js:9-12 | a missing unit selects metric, and a missing location reaches the provider as "undefined" |

## Left out

- Text.Lower: only lower-cases the ASCII letters A to Z. Unicode case mapping is not modelled.
- HourLabel.ParseInt: returns the exact integer. JavaScript loses precision above 2^53, and that is not modelled. A negative zero reads as 0, which prints the same.
- `Math.round` on the displayed readings and temperatures is not modelled. Readings are carried as the values the payload holds.
- Dates are not modelled: `formatDate` and `getDayOfWeek` depend on locale and time-zone data, so the model carries the date string itself.
- Dashboard.WeatherPage.CompleteFetch: requires a fetch in flight. Overlapping fetches are not modelled: one whose reply arrives after a newer one started, and React's batching of updates.
- Dashboard.WeatherPage.Render: requires at least one day in the shown payload. The page reads `days[0]` and throws on an empty list, and that crash is not modelled.
- Forecast.CurrentPanel: requires at least one day, for the same reason: the panel reads `days[0]`, and the crash on an empty list is not modelled.
- Forecast.DashboardOf: requires at least one day, for the same reason as Forecast.CurrentPanel.
- The JSON the page receives is modelled as a typed payload. Bodies of another shape are not modelled, nor the `error` object of the relay's 500 response, which the page never reads because `ok` is false.
- The relay's query parameters are modelled as single strings. Express's array values for repeated parameters and its percent-decoding are not modelled.
- Relay.LocationOfUrl and Relay.UnitGroupOfUrl: read a URL only by its `#` and `?` separators and its last `=`. Percent-decoding and dot segments such as `..` in the path are not modelled, so a location holding them is described only up to those rewrites.
- Dashboard.RelayQueryOf: splits the request only at `#` and `&`, taking the location from the first parameter and the unit from the last, which must be `unit=`. A `unit` parameter elsewhere, a repeated one, and percent-encoding by the browser with decoding on the relay are not modelled.
- Relay.KeyOfUrl: reads the key only as the first query parameter, up to the next `&`; percent-decoding is not modelled.
- Dashboard.RequestRoundTrip: states the round trip only for locations and units without `#`; a `#` there ends the part of the URL that is sent.
- The sun animation on the current-conditions icon, all JSX layout, styling and motion, and the social links are presentation only.
- Logging with `console.error` is not modelled.
- The server start-up and router mounting in `backend/server.js` are not part of this model.
- Numbers are finite or NaN. Infinity is not modelled, and only truthiness matters to the page.

Two behaviours of the code worth stating:
- The location is put into the provider URL without any encoding, so a `?` or `#` in it cuts what the provider receives (`Relay.LocationReachesProvider`).
- A label such as "Rain, Partially cloudy" gets the rain icon, not the cloud icon, because rain is tested first (`Icons.RainOutranksCloud`).
