/** The display-selection rules of `processWeather` and `processForecast` in
    assets/js/weather.js: which precipitation amounts are listed, whether an
    observation is by day or by night, and which class each grid cell gets.
    Only the fields of the API responses these rules read are modelled. */
module Display {
  import opened Wrappers
  import Conversions

  /** A `rain` or `snow` object of a response: its "1h" and "3h" keys, in
      millimetres, each possibly absent. */
  datatype Volumes = Volumes(oneHour: Option<real>, threeHours: Option<real>)

  /** The fields of a current-conditions response the rules read. */
  datatype Observation = Observation(
    dt: int, sunrise: int, sunset: int,
    rain: Option<Volumes>, snow: Option<Volumes>)

  /** The fields of one forecast item the rules read; `pod` is the API's
      part-of-day string. */
  datatype ForecastItem = ForecastItem(rain: Option<Volumes>, snow: Option<Volumes>, pod: string)

  /** One key/value pair of the `precip` record, the value in inches. */
  datatype PrecipEntry = PrecipEntry(key: string, inches: real)

  /** The "1h" value of a possibly absent `rain`/`snow` object. */
  function OneHour(v: Option<Volumes>): Option<real>
  {
    if v.Some? then v.value.oneHour else None
  }

  /** The "3h" value of a possibly absent `rain`/`snow` object. */
  function ThreeHours(v: Option<Volumes>): Option<real>
  {
    if v.Some? then v.value.threeHours else None
  }

  /** A record field of `precip`: 0 when the key is absent, otherwise the
      millimetres converted to inches. */
  function Amount(mm: Option<real>): (inches: real)
    ensures mm.None? ==> inches == 0.0
    ensures mm.Some? ==> inches * 25.4 == mm.value
    ensures inches == 0.0 <==> mm.None? || mm.value == 0.0
  {
    if mm.Some? then Conversions.PrecipToIn(mm.value) else 0.0
  }

  /** The four optional amounts of a response, in record order. */
  function Readings(obs: Observation): seq<Option<real>>
  {
    [OneHour(obs.rain), ThreeHours(obs.rain), OneHour(obs.snow), ThreeHours(obs.snow)]
  }

  /** The keys of the current-conditions record, in declaration order. */
  const CurrentKeys: seq<string> := ["rain_1h", "rain_3h", "snow_1h", "snow_3h"]

  /** `Object.entries(precip)` of `processWeather`: four fields in the order
      they are declared, filled in where the response has them. */
  function CurrentPrecip(obs: Observation): (entries: seq<PrecipEntry>)
    ensures |entries| == 4
    ensures forall k :: 0 <= k < 4 ==>
      entries[k].key == CurrentKeys[k] && entries[k].inches == Amount(Readings(obs)[k])
  {
    [PrecipEntry("rain_1h", Amount(OneHour(obs.rain))),
     PrecipEntry("rain_3h", Amount(ThreeHours(obs.rain))),
     PrecipEntry("snow_1h", Amount(OneHour(obs.snow))),
     PrecipEntry("snow_3h", Amount(ThreeHours(obs.snow)))]
  }

  /** `Object.entries(precip)` of `processForecast`: only the three-hour
      fields. */
  function ForecastPrecip(item: ForecastItem): (entries: seq<PrecipEntry>)
    ensures |entries| == 2
    ensures forall k :: 0 <= k < 2 ==>
      entries[k].key == ForecastKeys[k] && entries[k].inches == Amount(ForecastReadings(item)[k])
  {
    [PrecipEntry("rain_3h", Amount(ThreeHours(item.rain))),
     PrecipEntry("snow_3h", Amount(ThreeHours(item.snow)))]
  }

  /** The two optional three-hour amounts of a forecast item. */
  function ForecastReadings(item: ForecastItem): seq<Option<real>>
  {
    [ThreeHours(item.rain), ThreeHours(item.snow)]
  }

  /** The keys of the forecast record, in declaration order. */
  const ForecastKeys: seq<string> := ["rain_3h", "snow_3h"]

  /** `xs` is `ys` with some elements dropped, order kept. */
  predicate SubsequenceOf<T(==)>(xs: seq<T>, ys: seq<T>)
    decreases |ys|
  {
    if xs == [] then true
    else if ys == [] then false
    else (xs[0] == ys[0] && SubsequenceOf(xs[1..], ys[1..])) || SubsequenceOf(xs, ys[1..])
  }

  /** `f` applied to every element of `xs`. */
  function Mapped<T, U>(f: T -> U, xs: seq<T>): seq<U>
  {
    seq(|xs|, i requires 0 <= i < |xs| => f(xs[i]))
  }

  /** Dropping elements and then mapping keeps the order of the mapped
      sequence. */
  lemma {:induction false} SubsequenceMapped<T, U>(xs: seq<T>, ys: seq<T>, f: T -> U)
    requires SubsequenceOf(xs, ys)
    ensures SubsequenceOf(Mapped(f, xs), Mapped(f, ys))
    decreases |ys|
  {
    if xs != [] {
      assert Mapped(f, ys)[1..] == Mapped(f, ys[1..]);
      if xs[0] == ys[0] && SubsequenceOf(xs[1..], ys[1..]) {
        SubsequenceMapped(xs[1..], ys[1..], f);
        assert Mapped(f, xs)[1..] == Mapped(f, xs[1..]);
      } else {
        SubsequenceMapped(xs, ys[1..], f);
      }
    }
  }

  /** `filter(([k, v]) => v !== 0)`: exactly the non-zero entries, in record
      order. */
  function NonZero(entries: seq<PrecipEntry>): (shown: seq<PrecipEntry>)
    ensures forall e :: e in shown <==> e in entries && e.inches != 0.0
    ensures SubsequenceOf(shown, entries)
    ensures |shown| <= |entries|
    ensures forall i :: 0 <= i < |shown| ==> shown[i].inches != 0.0
  {
    if entries == [] then []
    else if entries[0].inches != 0.0 then [entries[0]] + NonZero(entries[1..])
    else NonZero(entries[1..])
  }

  /** The filter keeps every copy of a non-zero entry and no copy of a zero
      one. */
  lemma {:induction false} NonZeroCounts(entries: seq<PrecipEntry>, e: PrecipEntry)
    ensures multiset(NonZero(entries))[e] == if e.inches != 0.0 then multiset(entries)[e] else 0
  {
    if entries != [] {
      var first, rest := entries[0], entries[1..];
      NonZeroCounts(rest, e);
      assert entries == [first] + rest;
      assert multiset(entries) == multiset{first} + multiset(rest);
      if first.inches != 0.0 {
        assert multiset(NonZero(entries)) == multiset{first} + multiset(NonZero(rest));
      } else {
        assert NonZero(entries) == NonZero(rest);
      }
    }
  }

  /** The label of a current-conditions precipitation line, from the key's
      prefix (rain or snow) and suffix (1h or 3h). */
  function CurrentLabel(key: string): (text: string)
    ensures IsRain(key) && IsHour(key) ==> text == "\U{1F4A7} last hour"
    ensures IsRain(key) && IsThreeHours(key) ==> text == "\U{1F4A7} last 3 hours"
    ensures IsSnow(key) && IsHour(key) ==> text == "\U{2744}\U{FE0F} last hour"
    ensures IsSnow(key) && IsThreeHours(key) ==> text == "\U{2744}\U{FE0F} last 3 hours"
  {
    (if StartsWith(key, "rain") then "\U{1F4A7}" else "")
    + (if StartsWith(key, "snow") then "\U{2744}\U{FE0F}" else "")
    + " "
    + (if EndsWith(key, "1h") then "last hour" else "")
    + (if EndsWith(key, "3h") then "last 3 hours" else "")
  }

  /** The label of a forecast precipitation line. */
  function ForecastLabel(key: string): (text: string)
    ensures IsRain(key) ==> text == "\U{1F4A7} expected"
    ensures IsSnow(key) ==> text == "\U{2744}\U{FE0F} expected"
  {
    (if StartsWith(key, "rain") then "\U{1F4A7}" else "")
    + (if StartsWith(key, "snow") then "\U{2744}\U{FE0F}" else "")
    + " expected"
  }

  predicate StartsWith(s: string, prefix: string)
  {
    |prefix| <= |s| && s[..|prefix|] == prefix
  }

  predicate EndsWith(s: string, suffix: string)
  {
    |suffix| <= |s| && s[|s| - |suffix|..] == suffix
  }

  /** `startsWith` and `endsWith` hold exactly when the text is the affix
      concatenated with the rest. */
  lemma AffixesByConcatenation(s: string, affix: string)
    ensures StartsWith(s, affix) <==> |affix| <= |s| && s == affix + s[|affix|..]
    ensures EndsWith(s, affix) <==> |affix| <= |s| && s == s[..|s| - |affix|] + affix
  {
    if |affix| <= |s| {
      assert s == s[..|affix|] + s[|affix|..];
      assert s == s[..|s| - |affix|] + s[|s| - |affix|..];
    }
  }

  /** A rain key: starts with "rain" and not with "snow". */
  predicate IsRain(key: string)
  {
    StartsWith(key, "rain") && !StartsWith(key, "snow")
  }

  /** A snow key: starts with "snow" and not with "rain". */
  predicate IsSnow(key: string)
  {
    StartsWith(key, "snow") && !StartsWith(key, "rain")
  }

  /** A one-hour key: ends with "1h" and not with "3h". */
  predicate IsHour(key: string)
  {
    EndsWith(key, "1h") && !EndsWith(key, "3h")
  }

  /** A three-hour key: ends with "3h" and not with "1h". */
  predicate IsThreeHours(key: string)
  {
    EndsWith(key, "3h") && !EndsWith(key, "1h")
  }

  /** The lines of the "Precipitation" cell of the current conditions:
      a label and an amount in inches per non-zero entry. */
  function CurrentPrecipLines(obs: Observation): (lines: seq<(string, real)>)
    ensures |lines| == |NonZero(CurrentPrecip(obs))| <= 4
    ensures forall i :: 0 <= i < |lines| ==> lines[i].1 != 0.0
    ensures SubsequenceOf(lines, Mapped(CurrentLine, CurrentPrecip(obs)))
  {
    var shown := NonZero(CurrentPrecip(obs));
    SubsequenceMapped(shown, CurrentPrecip(obs), CurrentLine);
    Mapped(CurrentLine, shown)
  }

  /** One line of the current-conditions cell: the label and the amount. */
  function CurrentLine(e: PrecipEntry): (line: (string, real))
    ensures line.1 == e.inches
  {
    (CurrentLabel(e.key), e.inches)
  }

  /** One line of a forecast cell: the label and the amount. */
  function ForecastLine(e: PrecipEntry): (line: (string, real))
    ensures line.1 == e.inches
  {
    (ForecastLabel(e.key), e.inches)
  }

  /** The lines of the "Precipitation" cell of a forecast item. */
  function ForecastPrecipLines(item: ForecastItem): (lines: seq<(string, real)>)
    ensures |lines| == |NonZero(ForecastPrecip(item))| <= 2
    ensures forall i :: 0 <= i < |lines| ==> lines[i].1 != 0.0
    ensures SubsequenceOf(lines, Mapped(ForecastLine, ForecastPrecip(item)))
  {
    var shown := NonZero(ForecastPrecip(item));
    SubsequenceMapped(shown, ForecastPrecip(item), ForecastLine);
    Mapped(ForecastLine, shown)
  }

  /** The label of "rain_1h". */
  lemma RainHourLabel()
    ensures CurrentLabel("rain_1h") == "\U{1F4A7} last hour"
  {
    assert "rain_1h"[..4] == "rain" && "rain_1h"[5..] == "1h";
    assert "rain_1h"[..4] != "snow" && "rain_1h"[5..] != "3h";
  }

  /** The labels of "rain_3h". */
  lemma RainThreeHoursLabels()
    ensures CurrentLabel("rain_3h") == "\U{1F4A7} last 3 hours"
    ensures ForecastLabel("rain_3h") == "\U{1F4A7} expected"
  {
    assert "rain_3h"[..4] == "rain" && "rain_3h"[5..] == "3h";
    assert "rain_3h"[..4] != "snow" && "rain_3h"[5..] != "1h";
  }

  /** The label of "snow_1h". */
  lemma SnowHourLabel()
    ensures CurrentLabel("snow_1h") == "\U{2744}\U{FE0F} last hour"
  {
    assert "snow_1h"[..4] == "snow" && "snow_1h"[5..] == "1h";
    assert "snow_1h"[..4] != "rain" && "snow_1h"[5..] != "3h";
  }

  /** The labels of "snow_3h". */
  lemma SnowThreeHoursLabels()
    ensures CurrentLabel("snow_3h") == "\U{2744}\U{FE0F} last 3 hours"
    ensures ForecastLabel("snow_3h") == "\U{2744}\U{FE0F} expected"
  {
    assert "snow_3h"[..4] == "snow" && "snow_3h"[5..] == "3h";
    assert "snow_3h"[..4] != "rain" && "snow_3h"[5..] != "1h";
  }

  /** The labels of the four current-conditions keys. */
  lemma CurrentLabels()
    ensures CurrentLabel("rain_1h") == "\U{1F4A7} last hour"
    ensures CurrentLabel("rain_3h") == "\U{1F4A7} last 3 hours"
    ensures CurrentLabel("snow_1h") == "\U{2744}\U{FE0F} last hour"
    ensures CurrentLabel("snow_3h") == "\U{2744}\U{FE0F} last 3 hours"
  {
    RainHourLabel();
    RainThreeHoursLabels();
    SnowHourLabel();
    SnowThreeHoursLabels();
  }

  /** The labels of the two forecast keys. */
  lemma ForecastLabels()
    ensures ForecastLabel("rain_3h") == "\U{1F4A7} expected"
    ensures ForecastLabel("snow_3h") == "\U{2744}\U{FE0F} expected"
  {
    RainThreeHoursLabels();
    SnowThreeHoursLabels();
  }

  /** An entry is listed exactly when the response carries a non-zero
      amount for it; an absent amount is never listed. */
  lemma EntryListed(obs: Observation, k: int)
    requires 0 <= k < 4
    ensures CurrentPrecip(obs)[k] in NonZero(CurrentPrecip(obs))
        <==> Readings(obs)[k].Some? && Readings(obs)[k].value != 0.0
  {
  }

  /** A forecast entry is listed exactly when the item carries a non-zero
      three-hour amount for it. */
  lemma ForecastEntryListed(item: ForecastItem, k: int)
    requires 0 <= k < 2
    ensures ForecastPrecip(item)[k] in NonZero(ForecastPrecip(item))
        <==> ForecastReadings(item)[k].Some? && ForecastReadings(item)[k].value != 0.0
  {
  }

  /** The four current-conditions labels are different from each other. */
  lemma CurrentLabelsDistinct(j: int, k: int)
    requires 0 <= j < 4 && 0 <= k < 4
    requires CurrentLabel(CurrentKeys[j]) == CurrentLabel(CurrentKeys[k])
    ensures j == k
  {
    CurrentLabels();
    assert |CurrentLabel(CurrentKeys[0])| == 11 && |CurrentLabel(CurrentKeys[1])| == 14;
    assert |CurrentLabel(CurrentKeys[2])| == 12 && |CurrentLabel(CurrentKeys[3])| == 15;
  }

  /** The two forecast labels are different from each other. */
  lemma ForecastLabelsDistinct(j: int, k: int)
    requires 0 <= j < 2 && 0 <= k < 2
    requires ForecastLabel(ForecastKeys[j]) == ForecastLabel(ForecastKeys[k])
    ensures j == k
  {
    ForecastLabels();
    assert |ForecastLabel(ForecastKeys[0])| == 10 && |ForecastLabel(ForecastKeys[1])| == 11;
  }

  /** The "Precipitation" cell of the current conditions shows the line of
      key k, with its amount in inches, exactly when the response carries a
      non-zero amount for that key. */
  lemma CurrentLineListed(obs: Observation, k: int)
    requires 0 <= k < 4
    ensures (CurrentLabel(CurrentKeys[k]), Amount(Readings(obs)[k])) in CurrentPrecipLines(obs)
        <==> Readings(obs)[k].Some? && Readings(obs)[k].value != 0.0
  {
    var entries := CurrentPrecip(obs);
    var shown := NonZero(entries);
    var lines := CurrentPrecipLines(obs);
    var line := (CurrentLabel(CurrentKeys[k]), Amount(Readings(obs)[k]));
    assert entries[k] == PrecipEntry(CurrentKeys[k], Amount(Readings(obs)[k]));
    if entries[k] in shown {
      var i :| 0 <= i < |shown| && shown[i] == entries[k];
      assert lines[i] == CurrentLine(shown[i]) == line;
    }
    if line in lines {
      var i :| 0 <= i < |lines| && lines[i] == line;
      assert lines[i] == CurrentLine(shown[i]);
      assert shown[i] in entries;
      var j :| 0 <= j < 4 && entries[j] == shown[i];
      CurrentLabelsDistinct(j, k);
      assert entries[k] in shown;
    }
  }

  /** The "Precipitation" cell of a forecast item shows the line of key k
      exactly when the item carries a non-zero three-hour amount for it. */
  lemma ForecastLineListed(item: ForecastItem, k: int)
    requires 0 <= k < 2
    ensures (ForecastLabel(ForecastKeys[k]), Amount(ForecastReadings(item)[k])) in ForecastPrecipLines(item)
        <==> ForecastReadings(item)[k].Some? && ForecastReadings(item)[k].value != 0.0
  {
    var entries := ForecastPrecip(item);
    var shown := NonZero(entries);
    var lines := ForecastPrecipLines(item);
    var line := (ForecastLabel(ForecastKeys[k]), Amount(ForecastReadings(item)[k]));
    assert entries[k] == PrecipEntry(ForecastKeys[k], Amount(ForecastReadings(item)[k]));
    if entries[k] in shown {
      var i :| 0 <= i < |shown| && shown[i] == entries[k];
      assert lines[i] == ForecastLine(shown[i]) == line;
    }
    if line in lines {
      var i :| 0 <= i < |lines| && lines[i] == line;
      assert lines[i] == ForecastLine(shown[i]);
      assert shown[i] in entries;
      var j :| 0 <= j < 2 && entries[j] == shown[i];
      ForecastLabelsDistinct(j, k);
      assert entries[k] in shown;
    }
  }

  /** Entries that are all zero are not listed at all. */
  lemma {:induction false} NonZeroAllZero(entries: seq<PrecipEntry>)
    requires forall i :: 0 <= i < |entries| ==> entries[i].inches == 0.0
    ensures NonZero(entries) == []
  {
    if entries != [] {
      NonZeroAllZero(entries[1..]);
    }
  }

  /** A response without `rain` and `snow` lists no precipitation at all. */
  lemma DryObservation(obs: Observation)
    requires obs.rain.None? && obs.snow.None?
    ensures CurrentPrecipLines(obs) == []
  {
    NonZeroAllZero(CurrentPrecip(obs));
  }

  /** Part of day of the current conditions: "d" exactly when the observation
      time lies strictly between sunrise and sunset, otherwise "n". */
  function CurrentPod(obs: Observation): (pod: string)
    ensures pod == "d" <==> obs.sunrise < obs.dt < obs.sunset
    ensures pod == "d" || pod == "n"
  {
    if obs.dt > obs.sunrise && obs.dt < obs.sunset then "d" else "n"
  }

  /** Whether a grid cell is a header cell or a data cell. */
  datatype FieldClass = Header | Data

  /** A row of the grid: its caption and class. */
  datatype Field = Field(name: string, fieldClass: FieldClass)

  /** The class of a value cell: header cells get "col_name"; data cells get
      "pod_day" by day, "pod_night" by night, and no class for any other
      part-of-day value. */
  function CellClass(c: FieldClass, pod: string): (classes: string)
    ensures c == Header ==> classes == "col_name"
    ensures c == Data && pod == "d" ==> classes == "pod_day"
    ensures c == Data && pod == "n" ==> classes == "pod_night"
    ensures c == Data && pod != "d" && pod != "n" ==> classes == ""
  {
    match c
    case Header => "col_name"
    case Data => if pod == "d" then "pod_day" else if pod == "n" then "pod_night" else ""
  }

  /** The `forEach` over the rows: the class given to each value cell, in
      row order. */
  method CellClasses(fields: seq<Field>, pod: string) returns (classes: seq<string>)
    ensures |classes| == |fields|
    ensures forall i :: 0 <= i < |fields| ==> classes[i] == CellClass(fields[i].fieldClass, pod)
  {
    classes := [];
    for i := 0 to |fields|
      invariant |classes| == i
      invariant forall j :: 0 <= j < i ==> classes[j] == CellClass(fields[j].fieldClass, pod)
    {
      var c := CellClass(fields[i].fieldClass, pod);
      classes := classes + [c];
    }
  }

  /** The rows of the current-conditions grid. */
  const CurrentFields: seq<Field> := [
    Field("Location", Header), Field("Time", Header),
    Field("Conditions", Data), Field("Temperature", Data), Field("Feels Like", Data),
    Field("Barometric Pressure", Data), Field("Relative Humidity", Data),
    Field("Dewpoint Temperature", Data), Field("Wind Direction and Speed", Data),
    Field("Cloud Cover", Data), Field("Visibility", Data), Field("Precipitation", Data),
    Field("\U{1F305}Sunrise", Data), Field("\U{1F307}Sunset", Data)]

  /** The value cells of one forecast column. */
  const ForecastValues: seq<Field> := [
    Field("Day", Header), Field("Time", Header),
    Field("Conditions", Data), Field("Temperature", Data), Field("Feels Like", Data),
    Field("Pressure", Data), Field("Humidity", Data), Field("Dewpoint Temperature", Data),
    Field("Wind Direction and Speed", Data), Field("Cloud Cover", Data),
    Field("Visibility", Data), Field("P.O.P.", Data), Field("Precipitation", Data)]

  /** In both grids the first two value cells are headers and every other
      cell is a data cell. */
  lemma HeadersFirst()
    ensures forall i :: 0 <= i < |CurrentFields| ==> (CurrentFields[i].fieldClass == Header <==> i < 2)
    ensures forall i :: 0 <= i < |ForecastValues| ==> (ForecastValues[i].fieldClass == Header <==> i < 2)
  {
  }

  /** Every data cell of the current-conditions grid is marked as day or
      night, never left without a class. */
  lemma CurrentCellsMarked(obs: Observation, i: int)
    requires 0 <= i < |CurrentFields|
    ensures CellClass(CurrentFields[i].fieldClass, CurrentPod(obs))
         == if i < 2 then "col_name"
            else if obs.sunrise < obs.dt < obs.sunset then "pod_day" else "pod_night"
  {
    HeadersFirst();
  }
}
