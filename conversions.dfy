/** The pure measurement rules of the `Weather` class in assets/js/weather.js:
    cardinal wind direction and the linear unit conversions. JavaScript
    numbers are modelled as mathematical reals. */
module Conversions {

  /** The sixteen compass labels, clockwise from north. Index k (1..15) is the
      label of the k-th sector of the direction chain; index 0 is the default. */
  const Compass: seq<string> :=
    ["N", "NNE", "NE", "ENE", "E", "ESE", "SE", "SSE",
     "S", "SSW", "SW", "WSW", "W", "WNW", "NW", "NNW"]

  /** Lower bound of the k-th sector of the chain: 11.25 + 22.5 * (k - 1).
      Every sector is 22.5 degrees wide. */
  function SectorLow(k: int): real
  {
    11.25 + 22.5 * (k - 1) as real
  }

  /** Cardinal direction of a wind angle in degrees: an ordered first-match
      chain of fifteen half-open sectors [low, high); anything no sector
      matches (below 11.25, at or above 348.75, negative, 360 or more) falls
      through to "N". */
  function Direction(angle: real): (dir: string)
    ensures dir in Compass
    ensures dir == "N" <==> angle < 11.25 || 348.75 <= angle
  {
    if 11.25 <= angle < 33.75 then "NNE"
    else if 33.75 <= angle < 56.25 then "NE"
    else if 56.25 <= angle < 78.75 then "ENE"
    else if 78.75 <= angle < 101.25 then "E"
    else if 101.25 <= angle < 123.75 then "ESE"
    else if 123.75 <= angle < 146.25 then "SE"
    else if 146.25 <= angle < 168.75 then "SSE"
    else if 168.75 <= angle < 191.25 then "S"
    else if 191.25 <= angle < 213.75 then "SSW"
    else if 213.75 <= angle < 236.25 then "SW"
    else if 236.25 <= angle < 258.75 then "WSW"
    else if 258.75 <= angle < 281.25 then "W"
    else if 281.25 <= angle < 303.75 then "WNW"
    else if 303.75 <= angle < 326.25 then "NW"
    else if 326.25 <= angle < 348.75 then "NNW"
    else "N"
  }

  /** The k-th label is chosen exactly on the k-th sector, lower bound
      inclusive, upper bound exclusive. */
  lemma DirectionSector(angle: real, k: int)
    requires 1 <= k <= 15
    ensures Direction(angle) == Compass[k] <==> SectorLow(k) <= angle < SectorLow(k) + 22.5
  {
  }

  /** One row of the direction chain: the half-open range [low, high) and
      the label it selects. */
  datatype Sector = Sector(low: real, high: real, tag: string)

  /** The fifteen explicit rows of the chain, in the order they are tried. */
  function SectorTable(): (table: seq<Sector>)
    ensures |table| == 15
    ensures table[0].low == 11.25 && table[14].high == 348.75
    ensures forall i :: 0 <= i < 14 ==> table[i].high == table[i + 1].low
    ensures forall i :: 0 <= i < 15 ==> table[i].low < table[i].high
    ensures forall i :: 0 <= i < 15 ==>
      table[i] == Sector(SectorLow(i + 1), SectorLow(i + 1) + 22.5, Compass[i + 1])
  {
    seq(15, i requires 0 <= i < 15 => Sector(SectorLow(i + 1), SectorLow(i + 1) + 22.5, Compass[i + 1]))
  }

  /** First-match-wins evaluation of a table of sectors, with a default. */
  function FirstMatch(table: seq<Sector>, angle: real, default: string): string
  {
    if table == [] then default
    else if table[0].low <= angle < table[0].high then table[0].tag
    else FirstMatch(table[1..], angle, default)
  }

  /** FirstMatch returns the label of the first matching row, and the
      default when no row matches. */
  lemma {:induction false} FirstMatchPicks(table: seq<Sector>, angle: real, default: string, k: int)
    requires -1 <= k < |table|
    requires forall j :: 0 <= j < |table| && j != k ==> !(table[j].low <= angle < table[j].high)
    requires k >= 0 ==> table[k].low <= angle < table[k].high
    ensures FirstMatch(table, angle, default) == if k >= 0 then table[k].tag else default
  {
    if table != [] && k != 0 {
      FirstMatchPicks(table[1..], angle, default, if k > 0 then k - 1 else -1);
    }
  }

  /** The if/else chain agrees with first-match evaluation of the table,
      with "N" as the default. */
  lemma DirectionIsFirstMatch(angle: real)
    ensures Direction(angle) == FirstMatch(SectorTable(), angle, "N")
  {
    var table := SectorTable();
    if 11.25 <= angle < 348.75 {
      var k: int := 1;
      while !(SectorLow(k) <= angle < SectorLow(k) + 22.5)
        invariant 1 <= k <= 15
        invariant angle >= SectorLow(k)
        decreases 15 - k
      {
        k := k + 1;
      }
      DirectionSector(angle, k);
      FirstMatchPicks(table, angle, "N", k - 1);
    } else {
      FirstMatchPicks(table, angle, "N", -1);
    }
  }

  /** Fahrenheit to Celsius; the result is the temperature whose Fahrenheit
      reading is `tempF`. */
  function TempFToC(tempF: real): (tempC: real)
    ensures tempC * (9.0 / 5.0) + 32.0 == tempF
  {
    (tempF - 32.0) * (5.0 / 9.0)
  }

  /** Celsius to Fahrenheit; the result is the temperature whose Celsius
      reading is `tempC`. */
  function TempCToF(tempC: real): (tempF: real)
    ensures (tempF - 32.0) * (5.0 / 9.0) == tempC
  {
    (tempC * (9.0 / 5.0)) + 32.0
  }

  /** The two temperature conversions are inverse to each other. */
  lemma TemperatureRoundTrip(x: real)
    ensures TempCToF(TempFToC(x)) == x
    ensures TempFToC(TempCToF(x)) == x
  {
  }

  /** Hectopascals to inches of mercury (1 inHg taken as 33.864 hPa). */
  function PressureToInHg(pressureHPa: real): (inHg: real)
    ensures inHg * 33.864 == pressureHPa
  {
    pressureHPa / 33.864
  }

  /** Millimetres to inches (1 inch = 25.4 mm exactly). */
  function PrecipToIn(precipMm: real): (inches: real)
    ensures inches * 25.4 == precipMm
    ensures inches == 0.0 <==> precipMm == 0.0
  {
    precipMm / 25.4
  }

  /** Metres to miles (1 mile = 1609.344 m exactly). */
  function VisToMi(visM: real): (miles: real)
    ensures miles * 1609.344 == visM
  {
    visM / 1609.344
  }

  /** The exact unit points: one inch of precipitation and one mile of
      visibility. */
  lemma ExactUnitPoints()
    ensures PrecipToIn(25.4) == 1.0
    ensures VisToMi(1609.344) == 1.0
  {
  }

  /** The standard atmosphere, 1013.25 hPa, reads as 29.92 inHg. */
  lemma StandardAtmosphere()
    ensures 29.92 <= PressureToInHg(1013.25) < 29.93
  {
  }
}
