/** The backend route `GET /api/weather`: it maps the `unit` query value to
    the provider's unit group, builds the provider URL by plain string
    interpolation, makes one request, and answers with the provider's JSON
    unchanged or with one fixed 500 body. The provider's reply is an input;
    the API key is the value read from the environment at start-up. */
module Relay {
  import opened JsValues
  import opened Text

  /** A JSON document. */
  datatype Json =
    | JNull
    | JBool(b: bool)
    | JNumber(x: real)
    | JString(s: string)
    | JArray(items: seq<Json>)
    | JObject(members: seq<(string, Json)>)

  /** The query parameters the route reads; either may be missing. */
  datatype Query = Query(loc: Option<string>, unit: Option<string>)

  /** How the provider call ends: the request throws (`Unreachable`), or a
      reply arrives with a status and a body that parses as JSON (`Some`)
      or does not (`None`). The error's detail is only logged. */
  datatype ProviderReply =
    | Unreachable(detail: string)
    | Replied(status: int, body: Option<Json>)

  datatype Response = Response(status: int, body: Json)

  /** One handled request: the provider URLs requested, in order, and the
      response sent back. */
  datatype Exchange = Exchange(upstream: seq<string>, response: Response)

  /** The provider's timeline endpoint, written in three parts. */
  const ProviderHost := "https://weather.visualcrossing.com"
  const ServicesPath := "/VisualCrossingWebServices/rest"
  const TimelinePath := "/services/timeline/"
  const TimelineBase := ProviderHost + ServicesPath + TimelinePath
  const FailureMessage := "Failed to fetch weather data"
  const FailureBody := JObject([("error", JString(FailureMessage))])

  /** `unit === '°F' ? 'us' : 'metric'`. */
  function UnitGroup(unit: Option<string>): (group: string)
    ensures group == "us" <==> unit == Some("°F")
    ensures group == "us" || group == "metric"
  {
    if unit == Some("°F") then "us" else "metric"
  }

  /** The provider URL: the timeline base, the location as given, then the
      key and the unit group as query parameters. A missing location or key
      is interpolated as "undefined". */
  function ProviderUrl(q: Query, apiKey: Option<string>): (url: string)
    ensures var loc := Interpolate(q.loc);
            |url| >= |TimelineBase| + |loc| &&
            url[..|TimelineBase|] == TimelineBase &&
            url[|TimelineBase|..|TimelineBase| + |loc|] == loc
    ensures var tail := "&unitGroup=" + UnitGroup(q.unit);
            |url| >= |tail| && url[|url| - |tail|..] == tail
    ensures |url| == |TimelineBase| + |Interpolate(q.loc)| + |"?key=" + Interpolate(apiKey)| +
                     |"&unitGroup=" + UnitGroup(q.unit)|
    ensures url[|TimelineBase| + |Interpolate(q.loc)|..|url| - |"&unitGroup=" + UnitGroup(q.unit)|] ==
            "?key=" + Interpolate(apiKey)
  {
    SplitUrl(TimelineBase, Interpolate(q.loc), "?key=", Interpolate(apiKey), "&unitGroup=", UnitGroup(q.unit));
    TimelineBase + Interpolate(q.loc) + "?key=" + Interpolate(apiKey) + "&unitGroup=" + UnitGroup(q.unit)
  }

  /** The route handler: one provider request, then the parsed body with
      status 200, or the fixed failure body with status 500 when the
      request throws or the body is not JSON. */
  function Handle(q: Query, apiKey: Option<string>, reply: ProviderReply): (x: Exchange)
    ensures x.upstream == [ProviderUrl(q, apiKey)]
    ensures x.response.status == 200 <==> reply.Replied? && reply.body.Some?
    ensures x.response.status == 200 ==> x.response.body == reply.body.value
    ensures x.response.status != 200 ==> x.response == Response(500, FailureBody)
  {
    var url := ProviderUrl(q, apiKey);
    match reply
    case Replied(_, Some(data)) => Exchange([url], Response(200, data))
    case _ => Exchange([url], Response(500, FailureBody))
  }

  /** The provider's status code is never looked at: any reply whose body
      parses is passed on with status 200, unchanged. */
  lemma StatusNotInspected(q: Query, apiKey: Option<string>, status: int, data: Json)
    ensures Handle(q, apiKey, Replied(status, Some(data))).response == Response(200, data)
  {
  }

  /** Every failure gets the same response, so nothing of the error
      reaches the caller. */
  lemma FailureIsUniform(q: Query, apiKey: Option<string>, r1: ProviderReply, r2: ProviderReply)
    requires !(r1.Replied? && r1.body.Some?) && !(r2.Replied? && r2.body.Some?)
    ensures Handle(q, apiKey, r1).response == Handle(q, apiKey, r2).response
    ensures Handle(q, apiKey, r1).response == Response(500, FailureBody)
  {
  }

  /** What an HTTP client sends of a URL: the text before the first `#`;
      a fragment is never sent. */
  function Sent(url: string): string {
    TakeUntil(url, '#')
  }

  /** The location the provider receives: the sent URL's path after the
      timeline base, up to the first `?`. */
  function LocationOfUrl(url: string): Option<string> {
    var sent := Sent(url);
    if |sent| >= |TimelineBase| && sent[..|TimelineBase|] == TimelineBase
    then Some(TakeUntil(sent[|TimelineBase|..], '?'))
    else None
  }

  /** The unit group the provider receives: the value of the last query
      parameter of the sent URL, or nothing when no query is sent. */
  function UnitGroupOfUrl(url: string): Option<string> {
    var sent := Sent(url);
    if '?' in sent then Some(AfterLast(sent, '=')) else None
  }

  /** The API key the provider receives: the value of the first query
      parameter of the sent URL, when it is `key=`, up to the next `&`. */
  function KeyOfUrl(url: string): Option<string> {
    var sent := Sent(url);
    var query := sent[|TakeUntil(sent, '?')|..];
    if |query| >= |"?key="| && query[..|"?key="|] == "?key="
    then Some(TakeUntil(query[|"?key="|..], '&'))
    else None
  }

  /** The key follows the location as the first query parameter: when the
      location holds neither `?` nor `#` and the key no `#`, the provider
      receives the key up to its first `&`, so all of it when it holds none;
      a missing key arrives as "undefined". */
  lemma KeyReachesProvider(q: Query, apiKey: Option<string>)
    ensures var loc, key := Interpolate(q.loc), Interpolate(apiKey);
            '?' !in loc && '#' !in loc && '#' !in key ==>
              KeyOfUrl(ProviderUrl(q, apiKey)) == Some(TakeUntil(key, '&'))
    ensures var loc, key := Interpolate(q.loc), Interpolate(apiKey);
            '?' !in loc && '#' !in loc && '#' !in key && '&' !in key ==>
              KeyOfUrl(ProviderUrl(q, apiKey)) == Some(key)
  {
    var loc, key := Interpolate(q.loc), Interpolate(apiKey);
    if '?' !in loc && '#' !in loc && '#' !in key {
      var group := UnitGroup(q.unit);
      BaseHasNoSeparators();
      assert '#' !in "&unitGroup=" + group;
      SplitUrl(TimelineBase, loc, "?key=", key, "&unitGroup=", group);
      KeyAfterPath(TimelineBase + loc, key, "&unitGroup=" + group);
      if '&' !in key {
        TakeUntilAbsent(key, '&');
      }
    }
  }

  /** With no `#` anywhere and no `?` before the key, the key parameter is
      read back up to its first `&`. */
  lemma KeyAfterPath(pre: string, key: string, tail: string)
    requires '#' !in pre && '?' !in pre && '#' !in key && '#' !in tail && tail != [] && tail[0] == '&'
    ensures KeyOfUrl(pre + ("?key=" + (key + tail))) == Some(TakeUntil(key, '&'))
  {
    var query := "?key=" + (key + tail);
    assert '#' !in "?key=";
    QueryAfterPath(pre, query);
    assert query[..|"?key="|] == "?key=" && query[|"?key="|..] == key + tail;
    if '&' in key {
      TakeUntilAppend(key, tail, '&');
    } else {
      TakeUntilPrefix(key, tail, '&');
      TakeUntilAbsent(key, '&');
    }
  }

  /** A URL with no `#`, whose first `?` opens `query`, is sent whole, and
      its query starts at that `?`. */
  lemma QueryAfterPath(pre: string, query: string)
    requires '#' !in pre && '?' !in pre && '#' !in query && query != [] && query[0] == '?'
    ensures var url := pre + query;
            Sent(url) == url && TakeUntil(url, '?') == pre && url[|pre|..] == query
  {
    TakeUntilAbsent(pre + query, '#');
    TakeUntilPrefix(pre, query, '?');
  }

  /** The timeline base holds neither separator. */
  lemma BaseHasNoSeparators()
    ensures '#' !in TimelineBase && '?' !in TimelineBase
  {
    var host, services, timeline := ProviderHost, ServicesPath, TimelinePath;
    assert forall k | 0 <= k < |host| :: host[k] != '?' && host[k] != '#';
    assert forall k | 0 <= k < |services| :: services[k] != '?' && services[k] != '#';
    assert forall k | 0 <= k < |timeline| :: timeline[k] != '?' && timeline[k] != '#';
  }

  /** The unit group is appended last, so it reaches the provider intact
      unless a `#` in the location or the key cuts the URL short; when the
      location has a `#` before any `?`, the provider receives no query at
      all, so neither the key nor the unit group. */
  lemma UnitGroupReachesProvider(q: Query, apiKey: Option<string>)
    ensures var loc := Interpolate(q.loc);
            '#' !in loc && '#' !in Interpolate(apiKey) ==>
              UnitGroupOfUrl(ProviderUrl(q, apiKey)) == Some(UnitGroup(q.unit))
    ensures var loc := Interpolate(q.loc);
            '#' in loc && '?' !in TakeUntil(loc, '#') ==>
              UnitGroupOfUrl(ProviderUrl(q, apiKey)) == None
  {
    var loc := Interpolate(q.loc);
    var key := Interpolate(apiKey);
    var group := UnitGroup(q.unit);
    BaseHasNoSeparators();
    if '#' !in loc && '#' !in key {
      assert '#' !in group && '=' !in group;
      QueryReachesProvider(TimelineBase, loc, key, group);
    }
    if '#' in loc && '?' !in TakeUntil(loc, '#') {
      FragmentDropsQuery(TimelineBase, loc, key, group);
    }
  }

  /** With no `#` anywhere, the whole URL is sent, it has a query, and its
      last parameter's value is the unit group. */
  lemma QueryReachesProvider(base: string, loc: string, key: string, group: string)
    requires '#' !in base && '#' !in loc && '#' !in key && '#' !in group && '=' !in group
    ensures var url := base + loc + "?key=" + key + "&unitGroup=" + group;
            Sent(url) == url && '?' in url && AfterLast(url, '=') == group
  {
    var url := base + loc + "?key=" + key + "&unitGroup=" + group;
    assert '#' !in "?key=" && '#' !in "&unitGroup=";
    TakeUntilAbsent(url, '#');
    assert url[|base| + |loc|] == '?';
    var head := base + loc + "?key=" + key + "&unitGroup";
    assert url == head + ['='] + group;
    AfterLastSuffix(head, group, '=');
  }

  /** A `#` in the location before any `?` ends what is sent inside the
      location, so no query is sent. */
  lemma FragmentDropsQuery(base: string, loc: string, key: string, group: string)
    requires '#' !in base && '?' !in base && '#' in loc && '?' !in TakeUntil(loc, '#')
    ensures '?' !in Sent(base + loc + "?key=" + key + "&unitGroup=" + group)
  {
    var rest := "?key=" + key + "&unitGroup=" + group;
    assert base + loc + "?key=" + key + "&unitGroup=" + group == base + (loc + rest);
    TakeUntilSkip(base, loc + rest, '#');
    TakeUntilAppend(loc, rest, '#');
  }

  /** The location is interpolated without encoding: the provider receives
      the text before its first `?` or `#`, and so the whole location exactly
      when it holds neither. */
  lemma LocationReachesProvider(q: Query, apiKey: Option<string>)
    ensures var loc := Interpolate(q.loc);
            LocationOfUrl(ProviderUrl(q, apiKey)) == Some(TakeUntil(TakeUntil(loc, '#'), '?'))
    ensures var loc := Interpolate(q.loc);
            '?' !in loc && '#' !in loc ==> LocationOfUrl(ProviderUrl(q, apiKey)) == Some(loc)
    ensures var loc := Interpolate(q.loc);
            '?' in loc || '#' in loc ==> TakeUntil(TakeUntil(loc, '#'), '?') != loc
  {
    var loc := Interpolate(q.loc);
    var key := Interpolate(apiKey);
    var url := ProviderUrl(q, apiKey);
    var rest := "?key=" + key + "&unitGroup=" + UnitGroup(q.unit);
    SplitUrl(TimelineBase, loc, "?key=", key, "&unitGroup=", UnitGroup(q.unit));
    assert url == TimelineBase + (loc + rest);
    BaseHasNoSeparators();
    TakeUntilSkip(TimelineBase, loc + rest, '#');
    var sent := Sent(url);
    assert sent[..|TimelineBase|] == TimelineBase;
    assert sent[|TimelineBase|..] == TakeUntil(loc + rest, '#');
    if '#' in loc {
      TakeUntilAppend(loc, rest, '#');
    } else {
      TakeUntilSkip(loc, rest, '#');
      TakeUntilAbsent(loc, '#');
      var tail := TakeUntil(rest, '#');
      assert rest[0] == '?';
      assert tail != [] && tail[0] == '?';
      if '?' in loc {
        TakeUntilAppend(loc, tail, '?');
      } else {
        TakeUntilPrefix(loc, tail, '?');
        TakeUntilAbsent(loc, '?');
      }
    }
    CutShortens(loc);
  }

  /** Cutting at a separator the text holds shortens it. */
  lemma CutShortens(loc: string)
    ensures '?' in loc || '#' in loc ==> TakeUntil(TakeUntil(loc, '#'), '?') != loc
  {
    var first := TakeUntil(loc, '#');
    var cut := TakeUntil(first, '?');
    if cut == loc {
      assert |first| == |loc|;
      assert first == loc;
    }
  }

  /** The provider URL, cut after its base. */
  lemma SplitUrl(base: string, loc: string, k: string, key: string, g: string, group: string)
    ensures var url := base + loc + k + key + g + group;
            |url| >= |base| + |loc| && url[..|base|] == base &&
            url[|base|..|base| + |loc|] == loc
    ensures var url := base + loc + k + key + g + group;
            url[|base|..] == loc + (k + key + g + group)
    ensures var url := base + loc + k + key + g + group;
            |url| >= |g + group| && url[|url| - |g + group|..] == g + group
    ensures var url := base + loc + k + key + g + group;
            |url| == |base| + |loc| + |k + key| + |g + group| &&
            url[|base| + |loc|..|url| - |g + group|] == k + key
    ensures base + loc + k + key + g + group == (base + loc) + (k + (key + (g + group)))
  {
    var url := base + loc + k + key + g + group;
    assert url == base + (loc + (k + key + g + group));
    assert url == (base + loc + k + key) + (g + group);
    assert url == (base + loc) + (k + key) + (g + group);
  }

  /** A missing `unit` parameter selects metric units and a missing `loc`
      puts the word "undefined" in the provider URL. */
  lemma MissingParameters(apiKey: Option<string>)
    ensures UnitGroup(None) == "metric"
    ensures LocationOfUrl(ProviderUrl(Query(None, None), apiKey)) == Some(Interpolate(None))
  {
    var word := Interpolate(None);
    assert forall k | 0 <= k < |word| :: word[k] != '?' && word[k] != '#';
    LocationReachesProvider(Query(None, None), apiKey);
  }
}
