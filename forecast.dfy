/** What the dashboard derives from a provider payload on every render: the
    current-conditions panel with its `||` fallbacks to today's values, the
    hourly strip (every third hour, at most seven) and the five-day outlook
    (`days.slice(1, 6)`). Numbers are kept as the provider sent them; the
    rounding applied for display is not modelled. */
module Forecast {
  import opened JsValues
  import opened Icons
  import opened HourLabel

  /** The provider's `currentConditions` record; each field may be absent. */
  datatype Current = Current(
    temp: Option<Num>,
    conditions: Option<string>,
    windspeed: Option<Num>,
    humidity: Option<Num>,
    feelslike: Option<Num>)

  /** One entry of a day's `hours` list. */
  datatype Hour = Hour(datetime: Option<string>, conditions: Option<string>, temp: Option<Num>)

  /** One entry of the payload's `days` list. */
  datatype Day = Day(
    datetime: Option<string>,
    temp: Option<Num>,
    tempmax: Option<Num>,
    tempmin: Option<Num>,
    conditions: Option<string>,
    windspeed: Option<Num>,
    humidity: Option<Num>,
    feelslike: Option<Num>,
    hours: Option<seq<Hour>>)

  /** The weather document the relay passes on from the provider. */
  datatype Payload = Payload(
    resolvedAddress: Option<string>,
    currentConditions: Option<Current>,
    days: seq<Day>)

  function Min(a: int, b: int): int {
    if a <= b then a else b
  }

  /** `xs.slice(start, end)` for non-negative bounds: both are clamped to
      the length, and an empty list results when `end` is not past
      `start`. */
  function JsSlice<T>(xs: seq<T>, start: nat, end: nat): (r: seq<T>)
    ensures |r| == if Min(end, |xs|) <= start then 0 else Min(end, |xs|) - start
    ensures forall k :: 0 <= k < |r| ==> r[k] == xs[start + k]
  {
    if Min(end, |xs|) <= start then [] else xs[start..Min(end, |xs|)]
  }

  // ----- the `||` fallbacks of the current-conditions panel -----

  /** An absent `currentConditions` reads as a record of absent fields:
      `currentConditions?.<field>` is then `undefined` for every field. */
  const NoCurrent := Current(None, None, None, None, None)

  function Reading(cc: Option<Current>): Current {
    if cc.None? then NoCurrent else cc.value
  }

  /** `windspeed` unit suffix: miles per hour exactly when the Fahrenheit
      button is selected. */
  function WindSuffix(unit: string): (s: string)
    ensures s == " mph" <==> unit == "°F"
    ensures s == " mph" || s == " km/h"
  {
    if unit == "°F" then " mph" else " km/h"
  }

  /** The current-conditions panel as displayed. */
  datatype CurrentView = CurrentView(
    address: Option<string>,
    date: Option<string>,
    temp: Option<Num>,
    conditions: Option<string>,
    icon: Icon,
    windspeed: Option<Num>,
    windUnit: string,
    humidity: Option<Num>,
    feelslike: Option<Num>,
    tempUnit: string)

  /** The panel of a payload shown in `unit`; it reads `days[0]`, which the
      page requires to exist. */
  function CurrentPanel(p: Payload, unit: string): (v: CurrentView)
    requires |p.days| >= 1
    ensures v.icon == WeatherIcon(v.conditions)
    ensures v.tempUnit == unit && v.windUnit == WindSuffix(unit)
  {
    var now := Reading(p.currentConditions);
    var today := p.days[0];
    var conditions := OrText(now.conditions, today.conditions);
    CurrentView(
      p.resolvedAddress,
      today.datetime,
      OrNum(now.temp, today.temp),
      conditions,
      WeatherIcon(conditions),
      OrNum(now.windspeed, today.windspeed),
      WindSuffix(unit),
      OrNum(now.humidity, today.humidity),
      OrNum(now.feelslike, today.feelslike),
      unit)
  }

  /** Without a `currentConditions` record every metric comes from today. */
  lemma PanelWithoutCurrent(p: Payload, unit: string)
    requires |p.days| >= 1 && p.currentConditions.None?
    ensures var v := CurrentPanel(p, unit);
            v.temp == p.days[0].temp && v.conditions == p.days[0].conditions &&
            v.windspeed == p.days[0].windspeed && v.humidity == p.days[0].humidity &&
            v.feelslike == p.days[0].feelslike
  {
  }

  /** Each metric shows the current reading when it is present and truthy,
      and today's value otherwise. */
  lemma PanelMetricSource(p: Payload, unit: string)
    requires |p.days| >= 1
    ensures var v := CurrentPanel(p, unit);
            var now := Reading(p.currentConditions);
            var today := p.days[0];
            (v.temp == if PresentNum(now.temp) then now.temp else today.temp) &&
            (v.conditions == if PresentText(now.conditions) then now.conditions else today.conditions) &&
            (v.windspeed == if PresentNum(now.windspeed) then now.windspeed else today.windspeed) &&
            (v.humidity == if PresentNum(now.humidity) then now.humidity else today.humidity) &&
            (v.feelslike == if PresentNum(now.feelslike) then now.feelslike else today.feelslike)
  {
  }

  /** A current reading of exactly zero is falsy, so the panel shows today's
      value instead: a calm wind of 0 displays today's wind speed, a current
      temperature of 0 displays today's temperature. */
  lemma ZeroReadingFallsBack(p: Payload, unit: string)
    requires |p.days| >= 1 && p.currentConditions.Some?
    ensures p.currentConditions.value.temp == Some(Finite(0.0)) ==>
              CurrentPanel(p, unit).temp == p.days[0].temp
    ensures p.currentConditions.value.windspeed == Some(Finite(0.0)) ==>
              CurrentPanel(p, unit).windspeed == p.days[0].windspeed
    ensures p.currentConditions.value.humidity == Some(Finite(0.0)) ==>
              CurrentPanel(p, unit).humidity == p.days[0].humidity
    ensures p.currentConditions.value.feelslike == Some(Finite(0.0)) ==>
              CurrentPanel(p, unit).feelslike == p.days[0].feelslike
    ensures p.currentConditions.value.conditions == Some("") ==>
              CurrentPanel(p, unit).conditions == p.days[0].conditions
  {
  }

  // ----- the hourly strip -----

  /** `xs.filter((_, index) => index % 3 === 0)`: the entries at indices
      0, 3, 6, …, in their original order. */
  function EveryThird<T>(xs: seq<T>): (r: seq<T>)
    ensures |r| == (|xs| + 2) / 3
    ensures forall k :: 0 <= k < |r| ==> r[k] == xs[3 * k]
  {
    if xs == [] then []
    else if |xs| <= 3 then [xs[0]]
    else [xs[0]] + EveryThird(xs[3..])
  }

  /** The hours the strip shows: every third entry of `hours`, at most seven
      of them, in order; nothing when `hours` is absent. */
  function HourlyStrip<T>(hours: Option<seq<T>>): (r: seq<T>)
    ensures hours.None? ==> r == []
    ensures hours.Some? ==> |r| == Min(7, (|hours.value| + 2) / 3)
    ensures hours.Some? ==> forall k :: 0 <= k < |r| ==> r[k] == hours.value[3 * k]
  {
    if hours.None? then [] else JsSlice(EveryThird(hours.value), 0, 7)
  }

  /** On a full day of 24 hours the strip shows hours 0, 3, …, 18. */
  lemma FullDayStrip<T>(hours: seq<T>)
    requires |hours| == 24
    ensures HourlyStrip(Some(hours)) ==
            [hours[0], hours[3], hours[6], hours[9], hours[12], hours[15], hours[18]]
  {
    var r := HourlyStrip(Some(hours));
    assert |r| == 7;
    assert r[0] == hours[0] && r[1] == hours[3] && r[2] == hours[6] && r[3] == hours[9];
    assert r[4] == hours[12] && r[5] == hours[15] && r[6] == hours[18];
  }

  /** One card of the hourly strip. */
  datatype HourCard = HourCard(time: string, icon: Icon, temp: Option<Num>)

  function Card(h: Hour): HourCard {
    HourCard(FormatTime(h.datetime), WeatherIcon(h.conditions), h.temp)
  }

  /** The cards of the strip, one per selected hour, in order. */
  function HourCards(hours: seq<Hour>): (r: seq<HourCard>)
    ensures |r| == |hours|
    ensures forall k :: 0 <= k < |r| ==> r[k] == Card(hours[k])
  {
    seq(|hours|, k requires 0 <= k < |hours| => Card(hours[k]))
  }

  // ----- the five-day outlook -----

  /** `days.slice(1, 6)`: the days after today, at most five of them. */
  function Outlook(days: seq<Day>): (r: seq<Day>)
    ensures |r| <= 5
    ensures |days| >= 1 ==> r == days[1..Min(|days|, 6)]
    ensures |days| == 0 ==> r == []
  {
    JsSlice(days, 1, 6)
  }

  /** One row of the outlook: the day, its icon, its high and its low. */
  datatype DayRow = DayRow(date: Option<string>, icon: Icon, tempmax: Option<Num>, tempmin: Option<Num>)

  function Row(d: Day): DayRow {
    DayRow(d.datetime, WeatherIcon(d.conditions), d.tempmax, d.tempmin)
  }

  function Rows(days: seq<Day>): (r: seq<DayRow>)
    ensures |r| == |days|
    ensures forall k :: 0 <= k < |r| ==> r[k] == Row(days[k])
  {
    seq(|days|, k requires 0 <= k < |days| => Row(days[k]))
  }

  /** The outlook panel: the expanded list and the collapsed list are built
      by separate branches of the page. */
  datatype OutlookPanel = Expanded(rows: seq<DayRow>) | Collapsed(rows: seq<DayRow>)

  function OutlookPanelOf(days: seq<Day>, isExpanded: bool): (panel: OutlookPanel)
    ensures panel.Expanded? <==> isExpanded
  {
    if isExpanded then Expanded(Rows(Outlook(days))) else Collapsed(Rows(Outlook(days)))
  }

  /** Both states of the panel list the same days: never today, at most
      five, in order. */
  lemma OutlookSameWhenToggled(days: seq<Day>)
    ensures OutlookPanelOf(days, true).rows == OutlookPanelOf(days, false).rows
    ensures var rows := OutlookPanelOf(days, true).rows;
            |rows| == (if |days| <= 1 then 0 else Min(|days|, 6) - 1) &&
            forall k :: 0 <= k < |rows| ==> rows[k] == Row(days[k + 1])
  {
  }

  // ----- the whole dashboard -----

  /** Everything the page shows for a loaded payload. */
  datatype DashboardView = DashboardView(current: CurrentView, hourly: seq<HourCard>, outlook: OutlookPanel)

  function DashboardOf(p: Payload, unit: string, isExpanded: bool): (v: DashboardView)
    requires |p.days| >= 1
    ensures |v.hourly| <= 7 && |v.outlook.rows| <= 5
    ensures p.days[0].hours.None? ==> v.hourly == []
    ensures p.days[0].hours.Some? ==> |v.hourly| == Min(7, (|p.days[0].hours.value| + 2) / 3)
    ensures p.days[0].hours.Some? ==>
              forall k :: 0 <= k < |v.hourly| ==> v.hourly[k] == Card(p.days[0].hours.value[3 * k])
    ensures v.outlook.Expanded? <==> isExpanded
  {
    DashboardView(
      CurrentPanel(p, unit),
      HourCards(HourlyStrip(p.days[0].hours)),
      OutlookPanelOf(p.days, isExpanded))
  }
}
