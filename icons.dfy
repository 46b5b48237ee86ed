/** The dashboard's icon choice for a condition text (`getWeatherIcon`):
    the text is lower-cased and matched against keyword groups in a fixed
    priority order; the first group with a keyword in the text decides the
    icon, and Sun is the default. The icon size argument only affects the
    drawing and is not modelled. */
module Icons {
  import opened JsValues
  import opened Text

  datatype Icon = Sun | CloudRain | CloudSnow | CloudLightning | CloudFog | CloudDrizzle | Cloudy

  /** One row of the priority table: any of `keywords` selects `icon`. */
  datatype Rule = Rule(keywords: seq<string>, icon: Icon)

  /** The priority table, in the order the chain of tests checks it. */
  const Rules: seq<Rule> := [
    Rule(["sunny", "clear"], Sun),
    Rule(["rain", "shower"], CloudRain),
    Rule(["snow", "flurr"], CloudSnow),
    Rule(["thunder", "lightning"], CloudLightning),
    Rule(["fog", "mist", "haz"], CloudFog),
    Rule(["drizzle"], CloudDrizzle),
    Rule(["cloud", "overcast", "part"], Cloudy)
  ]

  /** Some keyword of the rule occurs in the text. */
  predicate Fires(rule: Rule, text: string) {
    exists k | k in rule.keywords :: Contains(text, k)
  }

  /** Reference definition: the icon of the first rule of `rules` that fires
      on `text`, or Sun when none does. */
  function FirstMatch(rules: seq<Rule>, text: string): (icon: Icon)
    ensures (forall j :: 0 <= j < |rules| ==> !Fires(rules[j], text)) ==> icon == Sun
  {
    if rules == [] then Sun
    else if Fires(rules[0], text) then rules[0].icon
    else FirstMatch(rules[1..], text)
  }

  /** The first rule that fires decides: the rule at position `i` fires and
      none before it does. */
  lemma {:induction false} FirstMatchIsFirst(rules: seq<Rule>, text: string, i: nat)
    requires i < |rules| && Fires(rules[i], text)
    requires forall j :: 0 <= j < i ==> !Fires(rules[j], text)
    ensures FirstMatch(rules, text) == rules[i].icon
  {
    if i > 0 {
      assert !Fires(rules[0], text);
      FirstMatchIsFirst(rules[1..], text, i - 1);
    }
  }

  /** `condition?.toLowerCase() || ''`: the lowered text, or the empty
      string when the text is absent. */
  function Normalize(condition: Option<string>): (text: string)
    ensures IsLowered(text)
    ensures condition.None? ==> text == ""
    ensures condition.Some? ==> text == Lower(condition.value)
  {
    LowerIdempotent(if condition.Some? then condition.value else "");
    match condition
    case None => ""
    case Some(s) => Lower(s)
  }

  /** `getWeatherIcon(condition)`, test by test. */
  function WeatherIcon(condition: Option<string>): Icon {
    var c := Normalize(condition);
    if Contains(c, "sunny") || Contains(c, "clear") then Sun
    else if Contains(c, "rain") || Contains(c, "shower") then CloudRain
    else if Contains(c, "snow") || Contains(c, "flurr") then CloudSnow
    else if Contains(c, "thunder") || Contains(c, "lightning") then CloudLightning
    else if Contains(c, "fog") || Contains(c, "mist") || Contains(c, "haz") then CloudFog
    else if Contains(c, "drizzle") then CloudDrizzle
    else if Contains(c, "cloud") || Contains(c, "overcast") || Contains(c, "part") then Cloudy
    else Sun
  }

  lemma FiresOne(r: Rule, t: string)
    requires |r.keywords| == 1
    ensures Fires(r, t) <==> Contains(t, r.keywords[0])
  {
  }

  lemma FiresTwo(r: Rule, t: string)
    requires |r.keywords| == 2
    ensures Fires(r, t) <==> Contains(t, r.keywords[0]) || Contains(t, r.keywords[1])
  {
  }

  lemma FiresThree(r: Rule, t: string)
    requires |r.keywords| == 3
    ensures Fires(r, t) <==> Contains(t, r.keywords[0]) || Contains(t, r.keywords[1]) || Contains(t, r.keywords[2])
  {
  }

  /** One step of the table scan. */
  lemma FirstMatchStep(rules: seq<Rule>, t: string)
    requires rules != []
    ensures FirstMatch(rules, t) == if Fires(rules[0], t) then rules[0].icon else FirstMatch(rules[1..], t)
  {
  }

  // The table scan from each row on, stated as the remaining tests of the chain.

  lemma ScanFrom6(c: string)
    ensures FirstMatch(Rules[6..], c) ==
      if Contains(c, "cloud") || Contains(c, "overcast") || Contains(c, "part") then Cloudy else Sun
  {
    var r := Rules[6..];
    assert r == [Rule(["cloud", "overcast", "part"], Cloudy)];
    FiresThree(r[0], c);
    FirstMatchStep(r, c);
    assert r[1..] == [];
  }

  lemma ScanFrom5(c: string)
    ensures FirstMatch(Rules[5..], c) ==
      if Contains(c, "drizzle") then CloudDrizzle else FirstMatch(Rules[6..], c)
  {
    var r := Rules[5..];
    assert r[0] == Rule(["drizzle"], CloudDrizzle) && r[1..] == Rules[6..];
    FiresOne(r[0], c);
    FirstMatchStep(r, c);
  }

  lemma ScanFrom4(c: string)
    ensures FirstMatch(Rules[4..], c) ==
      if Contains(c, "fog") || Contains(c, "mist") || Contains(c, "haz") then CloudFog else FirstMatch(Rules[5..], c)
  {
    var r := Rules[4..];
    assert r[0] == Rule(["fog", "mist", "haz"], CloudFog) && r[1..] == Rules[5..];
    FiresThree(r[0], c);
    FirstMatchStep(r, c);
  }

  lemma ScanFrom3(c: string)
    ensures FirstMatch(Rules[3..], c) ==
      if Contains(c, "thunder") || Contains(c, "lightning") then CloudLightning else FirstMatch(Rules[4..], c)
  {
    var r := Rules[3..];
    assert r[0] == Rule(["thunder", "lightning"], CloudLightning) && r[1..] == Rules[4..];
    FiresTwo(r[0], c);
    FirstMatchStep(r, c);
  }

  lemma ScanFrom2(c: string)
    ensures FirstMatch(Rules[2..], c) ==
      if Contains(c, "snow") || Contains(c, "flurr") then CloudSnow else FirstMatch(Rules[3..], c)
  {
    var r := Rules[2..];
    assert r[0] == Rule(["snow", "flurr"], CloudSnow) && r[1..] == Rules[3..];
    FiresTwo(r[0], c);
    FirstMatchStep(r, c);
  }

  lemma ScanFrom1(c: string)
    ensures FirstMatch(Rules[1..], c) ==
      if Contains(c, "rain") || Contains(c, "shower") then CloudRain else FirstMatch(Rules[2..], c)
  {
    var r := Rules[1..];
    assert r[0] == Rule(["rain", "shower"], CloudRain) && r[1..] == Rules[2..];
    FiresTwo(r[0], c);
    FirstMatchStep(r, c);
  }

  lemma ScanFrom0(c: string)
    ensures FirstMatch(Rules, c) ==
      if Contains(c, "sunny") || Contains(c, "clear") then Sun else FirstMatch(Rules[1..], c)
  {
    var r := Rules;
    assert r[0] == Rule(["sunny", "clear"], Sun);
    FiresTwo(r[0], c);
    FirstMatchStep(r, c);
  }

  /** The chain of tests chooses exactly what the priority table does. */
  lemma WeatherIconIsFirstMatch(condition: Option<string>)
    ensures WeatherIcon(condition) == FirstMatch(Rules, Normalize(condition))
  {
    var c := Normalize(condition);
    ScanFrom0(c);
    if Contains(c, "sunny") || Contains(c, "clear") {
      return;
    }
    ScanFrom1(c);
    if Contains(c, "rain") || Contains(c, "shower") {
      return;
    }
    ScanFrom2(c);
    if Contains(c, "snow") || Contains(c, "flurr") {
      return;
    }
    ScanFrom3(c);
    if Contains(c, "thunder") || Contains(c, "lightning") {
      return;
    }
    ScanFrom4(c);
    if Contains(c, "fog") || Contains(c, "mist") || Contains(c, "haz") {
      return;
    }
    ScanFrom5(c);
    if Contains(c, "drizzle") {
      return;
    }
    ScanFrom6(c);
  }

  /** An absent, empty or unmatched label gives Sun. */
  lemma IconDefault(condition: Option<string>)
    ensures (forall j :: 0 <= j < |Rules| ==> !Fires(Rules[j], Normalize(condition))) ==>
              WeatherIcon(condition) == Sun
  {
    WeatherIconIsFirstMatch(condition);
  }

  lemma IconOfMissingLabel()
    ensures WeatherIcon(None) == Sun
    ensures WeatherIcon(Some("")) == Sun
  {
    assert Normalize(None) == "" && Normalize(Some("")) == "";
  }

  /** The icon of a label whose rule `i` is the first to fire is that rule's
      icon. */
  lemma IconOfFirstFiringRule(condition: Option<string>, i: nat)
    requires i < |Rules| && Fires(Rules[i], Normalize(condition))
    requires forall j :: 0 <= j < i ==> !Fires(Rules[j], Normalize(condition))
    ensures WeatherIcon(condition) == Rules[i].icon
  {
    WeatherIconIsFirstMatch(condition);
    FirstMatchIsFirst(Rules, Normalize(condition), i);
  }

  /** Matching ignores letter case: labels that agree once lower-cased get
      the same icon, and lower-casing a label first changes nothing. */
  lemma IconCaseInsensitive(s: string, t: string)
    requires Lower(s) == Lower(t)
    ensures WeatherIcon(Some(s)) == WeatherIcon(Some(t))
    ensures WeatherIcon(Some(s)) == WeatherIcon(Some(Lower(s)))
  {
    LowerIdempotent(s);
  }

  /** A keyword written in any mix of cases inside the label still fires
      its rule. */
  lemma KeywordInAnyCaseFires(condition: string, i: nat, word: string)
    requires i < |Rules| && Lower(word) in Rules[i].keywords
    requires Contains(condition, word)
    ensures Fires(Rules[i], Normalize(Some(condition)))
  {
    ContainsLower(condition, word);
  }

  // Keyword facts about the example labels, each shown by a letter of the
  // keyword that the label lacks.

  lemma NoSunKeyword(c: string)
    requires 's' !in c && 'e' !in c
    ensures !Contains(c, "sunny") && !Contains(c, "clear")
  {
    NotContainsMissingChar(c, "sunny", 0);
    NotContainsMissingChar(c, "clear", 2);
  }

  lemma NoPrecipitationKeyword(c: string)
    requires 's' !in c && 'n' !in c && 'f' !in c
    ensures !Contains(c, "rain") && !Contains(c, "shower")
    ensures !Contains(c, "snow") && !Contains(c, "flurr")
  {
    NotContainsMissingChar(c, "rain", 3);
    NotContainsMissingChar(c, "shower", 0);
    NotContainsMissingChar(c, "snow", 0);
    NotContainsMissingChar(c, "flurr", 0);
  }

  lemma NoObscuringKeyword(c: string)
    requires 'n' !in c && 'f' !in c && 's' !in c && 'z' !in c
    ensures !Contains(c, "thunder") && !Contains(c, "lightning")
    ensures !Contains(c, "fog") && !Contains(c, "mist") && !Contains(c, "haz")
    ensures !Contains(c, "drizzle")
  {
    NotContainsMissingChar(c, "thunder", 3);
    NotContainsMissingChar(c, "lightning", 5);
    NotContainsMissingChar(c, "fog", 0);
    NotContainsMissingChar(c, "mist", 2);
    NotContainsMissingChar(c, "haz", 2);
    NotContainsMissingChar(c, "drizzle", 3);
  }

  /** A label naming several conditions takes the icon of the earliest rule:
      rain outranks the cloud keywords, in any letter case. */
  lemma RainOutranksCloud(s: string)
    requires Lower(s) == "rain, partially cloudy"
    ensures WeatherIcon(Some(s)) == CloudRain
  {
    var c := Lower(s);
    assert 's' !in c && 'e' !in c;
    NoSunKeyword(c);
    assert c[..4] == "rain";
    ContainsAt(c, "rain", 0);
  }

  /** A label that mentions clouds and fires none of the six rules tested
      before the cloud keywords gives Cloudy. */
  lemma CloudyWhenNothingOutranks(s: string)
    requires forall j :: 0 <= j < 6 ==> !Fires(Rules[j], Lower(s))
    requires Contains(Lower(s), "cloud")
    ensures WeatherIcon(Some(s)) == Cloudy
  {
    assert Rules[6].keywords[0] == "cloud";
    FiresThree(Rules[6], Lower(s));
    IconOfFirstFiringRule(Some(s), 6);
  }

  /** A text lacking the letters s, e, n, f and z fires none of the six
      rules before the cloud keywords. */
  lemma NoEarlierRuleFires(c: string)
    requires 's' !in c && 'e' !in c && 'n' !in c && 'f' !in c && 'z' !in c
    ensures forall j :: 0 <= j < 6 ==> !Fires(Rules[j], c)
  {
    NoSunKeyword(c);
    NoPrecipitationKeyword(c);
    NoObscuringKeyword(c);
    FiresTwo(Rules[0], c);
    FiresTwo(Rules[1], c);
    FiresTwo(Rules[2], c);
    FiresTwo(Rules[3], c);
    FiresThree(Rules[4], c);
    FiresOne(Rules[5], c);
  }

  /** A label with only the cloud keywords gives Cloudy. */
  lemma PartiallyCloudyIsCloudy(s: string)
    requires Lower(s) == "partially cloudy"
    ensures WeatherIcon(Some(s)) == Cloudy
  {
    PartiallyCloudyLetters(Lower(s));
    NoEarlierRuleFires(Lower(s));
    CloudyWhenNothingOutranks(s);
  }

  lemma PartiallyCloudyLetters(c: string)
    requires c == "partially cloudy"
    ensures 's' !in c && 'e' !in c && 'n' !in c && 'f' !in c && 'z' !in c
    ensures Contains(c, "cloud")
  {
    assert c[10..15] == "cloud";
    ContainsAt(c, "cloud", 10);
  }

  /** "sunny" is tested before "part", so a partly sunny sky shows Sun. */
  lemma PartlySunnyIsSun(s: string)
    requires Lower(s) == "partly sunny"
    ensures WeatherIcon(Some(s)) == Sun
  {
    ContainsAt(Lower(s), "sunny", 7);
  }
}
