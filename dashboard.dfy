/** The dashboard component's state and its transitions: the seven state
    variables of the page, the effect that fetches whenever the committed
    location or the unit changes, the fetch itself (start, then success or
    failure), the search form, the unit buttons and the outlook toggle. The
    network reply is an input of the completion transition. */
module Dashboard {
  import opened JsValues
  import opened Forecast
  import opened Text
  import Relay

  const Fahrenheit := "°F"
  const Celsius := "°C"
  const InitialLocation := "London,UK"

  /** The relay endpoint, up to the location parameter's value. */
  const RequestHead := "http://localhost:5000/api/weather?loc="

  /** The one message the page shows for any failed fetch. */
  const FetchFailedMessage := "Failed to fetch weather data. Please try again."

  /** What a fetch asks the relay for: the location and the unit. */
  datatype Query = Query(loc: string, unit: string)

  /** How a fetch ends: the request threw (network failure), or a response
      arrived, with its `ok` flag and its body parsed as a payload (`None`
      when the body is not valid JSON). */
  datatype Reply = NetworkFailure | Response(ok: bool, body: Option<Payload>)

  /** The fetch succeeds exactly when the response is ok and its body
      parses; every other outcome takes the catch branch. */
  predicate Succeeds(reply: Reply) {
    reply.Response? && reply.ok && reply.body.Some?
  }

  /** What the page shows: the spinner, the error banner, the dashboard. */
  datatype Screen = Screen(spinner: bool, banner: Option<string>, dashboard: Option<DashboardView>)

  class WeatherPage {
    var location: string
    var searchInput: string
    var unit: string
    var isExpanded: bool
    var weatherData: Option<Payload>
    var isLoading: bool
    var error: Option<string>
    /** The location and unit the fetch effect last ran with; `None` before
        the first render has run it. */
    var effectDeps: Option<Query>
    /** The query of the fetch in flight, if any. */
    var pending: Option<Query>

    /** The unit is always one of the two button values, the error is
        always the fixed message, and the page is loading exactly while a
        fetch is in flight, which is the one the effect last started. */
    ghost predicate Valid()
      reads this
    {
      (unit == Fahrenheit || unit == Celsius) &&
      (error.Some? ==> error.value == FetchFailedMessage) &&
      (isLoading <==> pending.Some?) &&
      (pending.Some? ==> effectDeps == pending)
    }

    constructor ()
      ensures Valid()
      ensures location == InitialLocation && searchInput == InitialLocation
      ensures unit == Fahrenheit && !isExpanded
      ensures weatherData == None && !isLoading && error == None
      ensures effectDeps == None && pending == None
    {
      location := InitialLocation;
      searchInput := InitialLocation;
      unit := Fahrenheit;
      isExpanded := false;
      weatherData := None;
      isLoading := false;
      error := None;
      effectDeps := None;
      pending := None;
    }

    /** The effect is due when the location or the unit differs from what
        it last ran with (or it has never run). */
    predicate FetchDue()
      reads this
    {
      effectDeps != Some(Query(location, unit))
    }

    /** Runs the fetch effect after a render: when it is due it starts a
        fetch for the current location and unit (loading on, error
        cleared) and returns that query; otherwise nothing happens. */
    method RunEffect() returns (started: Option<Query>)
      requires Valid()
      modifies this
      ensures Valid()
      ensures started.Some? <==> old(FetchDue())
      ensures started.Some? ==> started.value == Query(location, unit)
      ensures started.Some? ==>
                isLoading && error == None && pending == started && effectDeps == started
      ensures started.None? ==>
                isLoading == old(isLoading) && error == old(error) &&
                pending == old(pending) && effectDeps == old(effectDeps)
      ensures location == old(location) && searchInput == old(searchInput) && unit == old(unit)
      ensures isExpanded == old(isExpanded) && weatherData == old(weatherData)
    {
      if FetchDue() {
        var q := Query(location, unit);
        effectDeps := Some(q);
        isLoading := true;
        error := None;
        pending := Some(q);
        started := Some(q);
      } else {
        started := None;
      }
    }

    /** Completes the fetch in flight: a success replaces the payload
        wholesale, a failure sets the fixed message and keeps the previous
        payload; loading ends either way. */
    method CompleteFetch(reply: Reply)
      requires Valid() && pending.Some?
      modifies this
      ensures Valid()
      ensures !isLoading && pending == None
      ensures Succeeds(reply) ==> weatherData == reply.body && error == old(error)
      ensures !Succeeds(reply) ==> weatherData == old(weatherData) && error == Some(FetchFailedMessage)
      ensures location == old(location) && searchInput == old(searchInput) && unit == old(unit)
      ensures isExpanded == old(isExpanded) && effectDeps == old(effectDeps)
      ensures FetchDue() == old(FetchDue())
    {
      if Succeeds(reply) {
        weatherData := reply.body;
      } else {
        error := Some(FetchFailedMessage);
      }
      isLoading := false;
      pending := None;
    }

    /** Typing in the search box. */
    method EditSearch(text: string)
      requires Valid()
      modifies this`searchInput
      ensures Valid() && searchInput == text
      ensures FetchDue() == old(FetchDue())
    {
      searchInput := text;
    }

    /** Submitting the search form commits the search text as the location
        and changes nothing else. */
    method SubmitSearch()
      requires Valid()
      modifies this`location
      ensures Valid() && location == searchInput
      ensures old(!FetchDue()) ==> (FetchDue() <==> searchInput != old(location))
    {
      location := searchInput;
    }

    /** The °F button. */
    method ChooseFahrenheit()
      requires Valid()
      modifies this`unit
      ensures Valid() && unit == Fahrenheit
      ensures old(unit) == Fahrenheit ==> FetchDue() == old(FetchDue())
      ensures old(unit) == Celsius && old(!FetchDue()) ==> FetchDue()
    {
      unit := Fahrenheit;
    }

    /** The °C button. */
    method ChooseCelsius()
      requires Valid()
      modifies this`unit
      ensures Valid() && unit == Celsius
      ensures old(unit) == Celsius ==> FetchDue() == old(FetchDue())
      ensures old(unit) == Fahrenheit && old(!FetchDue()) ==> FetchDue()
    {
      unit := Celsius;
    }

    /** Clicking the outlook header flips between expanded and collapsed. */
    method ToggleExpanded()
      requires Valid()
      modifies this`isExpanded
      ensures Valid() && isExpanded == !old(isExpanded)
      ensures FetchDue() == old(FetchDue())
    {
      isExpanded := !isExpanded;
    }

    /** What a render shows. The dashboard needs `days[0]`, so a payload
        with no days cannot be shown. */
    function Render(): (s: Screen)
      reads this
      requires weatherData.Some? && !isLoading ==> |weatherData.value.days| >= 1
      ensures s.spinner == isLoading
      ensures s.banner == if error.Some? && error.value != "" then error else None
      ensures s.dashboard.Some? <==> weatherData.Some? && !isLoading
      ensures s.dashboard.Some? ==>
                s.dashboard.value == DashboardOf(weatherData.value, unit, isExpanded)
    {
      Screen(
        isLoading,
        if error.Some? && error.value != "" then error else None,
        if weatherData.Some? && !isLoading
        then Some(DashboardOf(weatherData.value, unit, isExpanded))
        else None)
    }
  }

  /** The request the page sends to the relay for a query; the location and
      the unit are interpolated as they are. */
  function RequestUrl(q: Query): (url: string)
    ensures |url| == |RequestHead| + |q.loc| + |"&unit="| + |q.unit|
    ensures url[..|RequestHead|] == RequestHead
    ensures url[|RequestHead|..|RequestHead| + |q.loc|] == q.loc
    ensures url[|RequestHead| + |q.loc|..|url| - |q.unit|] == "&unit="
    ensures url[|url| - |q.unit|..] == q.unit
  {
    RequestParts(RequestHead, q.loc, "&unit=", q.unit);
    RequestHead + q.loc + "&unit=" + q.unit
  }

  /** Where each part of a three-part concatenation lies. */
  lemma RequestParts(head: string, loc: string, sep: string, unit: string)
    ensures var url := head + loc + sep + unit;
            url[..|head|] == head && url[|head|..|head| + |loc|] == loc &&
            url[|head| + |loc|..|url| - |unit|] == sep && url[|url| - |unit|..] == unit &&
            url[|head|..] == loc + sep + unit
  {
  }

  /** The query the relay reads back from a request URL: the part an HTTP
      client sends, after the endpoint, split at the first `&` into the
      location and the `&unit=` parameter's value. Percent-decoding is not
      modelled. */
  function RelayQueryOf(url: string): Option<Query> {
    var sent := Relay.Sent(url);
    if |sent| >= |RequestHead| && sent[..|RequestHead|] == RequestHead
    then QueryOfParams(sent[|RequestHead|..])
    else None
  }

  /** The parameters after `loc=`, split at `&` as the relay's query parser
      does: the location is the text up to the first `&`, and the unit is
      the value of the last parameter, which must be `unit=`. */
  function QueryOfParams(params: string): Option<Query> {
    var loc := TakeUntil(params, '&');
    var last := AfterLast(params, '&');
    if |loc| < |params| && |last| >= |"unit="| && last[..|"unit="|] == "unit="
    then Some(Query(loc, last[|"unit="|..]))
    else None
  }

  /** The endpoint holds no `#`. */
  lemma HeadHasNoFragment()
    ensures '#' !in RequestHead
  {
    var head := RequestHead;
    assert forall k | 0 <= k < |head| :: head[k] != '#';
  }

  /** The relay reads a location holding `&` cut at its first `&`, and
      reads back the query the page sent exactly when neither the location
      nor the unit holds an `&`. */
  lemma RequestRoundTrip(q: Query)
    requires '#' !in q.loc && '#' !in q.unit
    ensures '&' !in q.unit ==> RelayQueryOf(RequestUrl(q)) == Some(Query(TakeUntil(q.loc, '&'), q.unit))
    ensures RelayQueryOf(RequestUrl(q)) == Some(q) <==> '&' !in q.loc && '&' !in q.unit
  {
    RequestParams(q);
    ParamsRoundTrip(q.loc, q.unit);
  }

  /** Without a `#`, the whole request is sent, and the relay reads the
      parameters that follow its endpoint. */
  lemma RequestParams(q: Query)
    requires '#' !in q.loc && '#' !in q.unit
    ensures RelayQueryOf(RequestUrl(q)) == QueryOfParams(q.loc + "&unit=" + q.unit)
  {
    var url := RequestUrl(q);
    HeadHasNoFragment();
    assert '#' !in "&unit=";
    RequestParts(RequestHead, q.loc, "&unit=", q.unit);
    assert '#' !in url;
    TakeUntilAbsent(url, '#');
    assert Relay.Sent(url) == url;
  }

  /** The parameters give the location up to its first `&` and, when the
      unit holds no `&`, the whole unit; so they split back into the
      location and the unit exactly when neither holds an `&`. */
  lemma ParamsRoundTrip(loc: string, unit: string)
    ensures '&' !in unit ==> QueryOfParams(loc + "&unit=" + unit) == Some(Query(TakeUntil(loc, '&'), unit))
    ensures QueryOfParams(loc + "&unit=" + unit) == Some(Query(loc, unit)) <==> '&' !in loc && '&' !in unit
  {
    var params := loc + "&unit=" + unit;
    ParamsLocation(loc, unit);
    ParamsUnit(loc, unit);
    var last := AfterLast(params, '&');
    if '&' !in unit {
      assert last[..|"unit="|] == "unit=" && last[|"unit="|..] == unit;
    }
  }

  /** The location read from the parameters is the location up to its first
      `&`, and is the whole location exactly when it holds none. */
  lemma ParamsLocation(loc: string, unit: string)
    ensures var params := loc + "&unit=" + unit;
            TakeUntil(params, '&') == TakeUntil(loc, '&') && |TakeUntil(loc, '&')| < |params|
    ensures TakeUntil(loc, '&') == loc <==> '&' !in loc
  {
    var rest := "&unit=" + unit;
    assert loc + "&unit=" + unit == loc + rest;
    if '&' in loc {
      TakeUntilAppend(loc, rest, '&');
    } else {
      TakeUntilPrefix(loc, rest, '&');
      TakeUntilAbsent(loc, '&');
    }
  }

  /** The last parameter is `unit=` and the whole unit when the unit holds
      no `&`, and shorter than that otherwise. */
  lemma ParamsUnit(loc: string, unit: string)
    ensures var last := AfterLast(loc + "&unit=" + unit, '&');
            '&' !in unit ==> last == "unit=" + unit
    ensures var last := AfterLast(loc + "&unit=" + unit, '&');
            '&' in unit ==> |last| < |"unit=" + unit|
  {
    var params := loc + "&unit=" + unit;
    if '&' !in unit {
      assert params == loc + ['&'] + ("unit=" + unit);
      AfterLastSuffix(loc, "unit=" + unit, '&');
    } else {
      assert params == (loc + "&unit=") + unit;
      AfterLastSkip(loc + "&unit=", unit, '&');
    }
  }

  /** The two unit buttons select the relay's two unit groups: °F asks for
      US units and °C for metric ones. */
  lemma UnitButtonsSelectGroups(q: Query)
    requires q.unit == Fahrenheit || q.unit == Celsius
    ensures q.unit == Fahrenheit ==> Relay.UnitGroup(Some(q.unit)) == "us"
    ensures q.unit == Celsius ==> Relay.UnitGroup(Some(q.unit)) == "metric"
  {
    assert Fahrenheit != Celsius by { assert Fahrenheit[1] != Celsius[1]; }
  }

  /** First load, then a switch to °C: the mount starts one fetch for
      London in °F; once it completes the effect stays quiet; pressing °C
      starts exactly one new fetch, for metric units. */
  method SwitchToCelsius(data: Payload) returns (first: Option<Query>, idle: Option<Query>, second: Option<Query>)
    ensures first == Some(Query(InitialLocation, Fahrenheit))
    ensures idle == None
    ensures second == Some(Query(InitialLocation, Celsius))
    ensures Relay.UnitGroup(Some(first.value.unit)) == "us"
    ensures Relay.UnitGroup(Some(second.value.unit)) == "metric"
  {
    var page := new WeatherPage();
    first := page.RunEffect();
    page.CompleteFetch(Response(true, Some(data)));
    idle := page.RunEffect();
    page.ChooseCelsius();
    second := page.RunEffect();
    UnitButtonsSelectGroups(first.value);
    UnitButtonsSelectGroups(second.value);
  }

  /** A failed search keeps the previous forecast: after London loads and a
      search for another place fails, the page shows the error banner and
      still shows London's dashboard. */
  method FailedSearchKeepsForecast(data: Payload, place: string) returns (screen: Screen)
    requires |data.days| >= 1 && place != InitialLocation
    ensures !screen.spinner
    ensures screen.banner == Some(FetchFailedMessage)
    ensures screen.dashboard == Some(DashboardOf(data, Fahrenheit, false))
  {
    var page := new WeatherPage();
    var _ := page.RunEffect();
    page.CompleteFetch(Response(true, Some(data)));
    page.EditSearch(place);
    page.SubmitSearch();
    var started := page.RunEffect();
    page.CompleteFetch(NetworkFailure);
    assert FetchFailedMessage != "";
    screen := page.Render();
  }
}
