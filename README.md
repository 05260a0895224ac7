# The Weather Dashboard: a Dafny model of its weather logic and tab widget

This project models two browser-side files of the weather dashboard.

- `assets/js/weather.js`, the `Weather` class. The model covers its unit
  conversions, the compass direction of a wind angle, the 12-hour clock
  rendering and weekday lookup of a timestamp, and the parsing of the search
  text into a geocoding request. It also covers the query-string builder, the
  URL builders, and the display rules of `processWeather` and
  `processForecast`: which precipitation amounts are listed, whether an
  observation counts as day or night, and which class every grid cell gets.
- `assets/js/tabbox.js`, the `Tabbox` widget. It is meant to keep one tab
  selected ("selected") and the matching panel shown ("show_panel"), with
  the other panels carrying "hide_panel". Clicks preserve this.
  `setDefaultSelectedTab` after a click elsewhere breaks it, and so does a
  negative index to the constructor.

Modules:

- `Wrappers`: `Option`.
- `Conversions`: direction and the unit conversions.
- `Clock`: `time_to_hhmm` and `getDotW`.
- `Geocode`: the search-text split, query classification, the key-value
  storage, `getParams`, and `getGeocodeURL` as a method of `Weather`.
- `Display`: precipitation, part of day and cell classes.
- `Tabbox`: the widget as a class over two arrays of class lists.

Modelling choices:

- JavaScript numbers are modelled as real numbers. Timestamps are whole seconds.
- The local time zone is an explicit offset in seconds.
- A `Date` is valid when its time value stays within 8.64e15 milliseconds.
  Outside that range the clock renders "NaN:NaNpm" and the weekday is
  undefined (`None`).
- `String.prototype.split` with the pattern `\s*,\s*` is modelled as the
  ECMAScript split loop. `\s` is the full JavaScript whitespace set.
- `encodeURIComponent` is a parameter: any string function.
- `localStorage` is a class holding a map.
- A DOM element is its class list, a set of names.
- A call that reads `classList` of `undefined` returns `TypeError`.
- `Array.prototype.at` is modelled with negative indices.

Angles outside the fifteen explicit sectors give the default "N"
(`Conversions.Direction`). That covers below 11.25, at or above 348.75,
negative angles, and 360 or more.

## Model

| member | source | states |
|---|---|---|
| Conversions.Direction | assets/js/weather.js:227-248 | the result is one of the 16 compass labels; it is "N" exactly when the angle is below 11.25 or at least 348.75 |
| Conversions.DirectionSector | assets/js/weather.js:231-245 | for each of the 15 explicit sectors, the label is that sector's name exactly when low <= angle < low + 22.5 (half-open on the high end) |
| Conversions.SectorTable | assets/js/weather.js:231-245 | the reference table: 15 non-empty sectors from 11.25 to 348.75, each ending where the next begins, 22.5 degrees wide, the k-th starting at 11.25 + 22.5(k-1), named in compass order |
| Conversions.FirstMatchPicks | assets/js/weather.js:231-246 | a first-match lookup over a sector table yields the name of the only matching row, or the default when no row matches |
| Conversions.DirectionIsFirstMatch | assets/js/weather.js:227-248 | the if/else chain equals the first-match lookup of the sector table with default "N", for every angle |
| Conversions.TempFToC | assets/js/weather.js:256-258 | the Celsius result converts back to the Fahrenheit input by (c * 9/5) + 32 |
| Conversions.TempCToF | assets/js/weather.js:266-268 | the Fahrenheit result converts back to the Celsius input by (f - 32) * 5/9 |
| Conversions.TemperatureRoundTrip | assets/js/weather.js:256-268 | the two temperature conversions are inverse to each other in both orders |
| Conversions.PressureToInHg | assets/js/weather.js:321-323 | the result times 33.864 is the pressure in hPa |
| Conversions.PrecipToIn | assets/js/weather.js:331-333 | the result times 25.4 is the millimetre amount; the result is zero exactly when the amount is zero |
| Conversions.VisToMi | assets/js/weather.js:347-349 | the result times 1609.344 is the distance in metres |
| Conversions.ExactUnitPoints | assets/js/weather.js:331-348 | 25.4 mm is exactly one inch and 1609.344 m exactly one mile |
| Conversions.StandardAtmosphere | assets/js/weather.js:321-323 | the standard atmosphere of 1013.25 hPa reads as 29.92 inHg (at least 29.92, below 29.93) |
| Clock.LocalBreakdown | assets/js/weather.js:359-360 | the local time splits into whole days, hour 0-23, minute 0-59 and second 0-59 that add back up to stamp + offset |
| Clock.ValidStamp | assets/js/weather.js:359 | `new Date(stamp * 1000)` holds a time value exactly when the milliseconds lie within plus or minus 8.64e15, the TimeClip bound; otherwise it is an Invalid Date (also at line 375) |
| Clock.WeekDay | assets/js/weather.js:374-377 | the weekday is 0-6 and is four more than the day number, modulo 7 |
| Clock.TwelveHour | assets/js/weather.js:360-361 | the 12-hour hour lies in 1..12 and agrees with the 24-hour hour modulo 12, so midnight and noon show as 12 |
| Clock.DecimalString | assets/js/weather.js:362-363 | `String(n)` is non-empty, one digit below 10, two digits below 100 |
| Clock.PadStart | assets/js/weather.js:362-363 | the padded string has the target width (or the original length), ends with the original and is filled in front |
| Clock.PadTwo | assets/js/weather.js:362-363 | a number below 100 padded to width 2 has the fill or the tens digit first and the ones digit second |
| Clock.HourField | assets/js/weather.js:360-362 | the hour field is two characters: a space and the digit for hours 1-9, or '1' and the second digit for 10-12 |
| Clock.Meridiem | assets/js/weather.js:364 | the suffix is "am" exactly before noon, otherwise "pm" |
| Clock.HhmmOf | assets/js/weather.js:362-365 | the rendering is seven characters: hour field, ':', two minute digits, then the suffix |
| Clock.TimeToHhmm | assets/js/weather.js:357-366 | an invalid date renders "NaN:NaNpm"; a valid one renders the local hour and minute |
| Clock.ParseWellFormed | assets/js/weather.js:362-365 | a string of the rendered shape reads back as its hour, minutes and am/pm choice |
| Clock.HhmmRoundTrip | assets/js/weather.js:360-365 | reading back a rendered hour and minute gives the 12-hour hour, the minutes and whether it is after noon |
| Clock.ClockRoundTrip | assets/js/weather.js:357-366 | reading back `time_to_hhmm` of a valid timestamp gives its local 12-hour hour, minutes and am/pm choice |
| Clock.EpochIsMidnight | assets/js/weather.js:357-366 | timestamp 0 in UTC renders "12:00am" |
| Clock.GetDotW | assets/js/weather.js:374-379 | a name is returned exactly when the date is valid, and it is the table entry of the local weekday |
| Clock.NextDay | assets/js/weather.js:374-379 | one day later gives the next name of the table, wrapping from Saturday to Sunday |
| Clock.DayNumberStep | assets/js/weather.js:359-360 | two breakdowns whose totals differ by one day have day numbers that differ by one |
| Clock.EpochIsThursday | assets/js/weather.js:374-379 | timestamp 0 in UTC is a Thursday |
| Geocode.SkipSpace | assets/js/weather.js:77 | the greedy `\s*` stops at the first non-whitespace character and covers only whitespace |
| Geocode.IsSpace | assets/js/weather.js:77 | `\s` is the full JavaScript WhiteSpace and LineTerminator set (tab, line feed, vertical tab, form feed, carriage return, space, U+00A0, U+1680, U+2000-U+200A, U+2028, U+2029, U+202F, U+205F, U+3000, U+FEFF); no whitespace character is a comma |
| Geocode.MatchAt | assets/js/weather.js:77 | a separator match starting at q ends after q and within the string |
| Geocode.MatchAtCommas | assets/js/weather.js:77 | a separator match contains exactly one comma; where none starts, the character there is not a comma |
| Geocode.SplitFrom | assets/js/weather.js:77 | the split loop always yields at least one piece |
| Geocode.SplitFromPieces | assets/js/weather.js:77 | the split loop yields one piece per remaining comma plus one, and no piece contains a comma |
| Geocode.SplitPieces | assets/js/weather.js:77 | the split of a text has one piece more than the text has commas, and no piece contains a comma |
| Geocode.Split | assets/js/weather.js:77 | `split(/\s*,\s*/)` of the query text always yields at least one piece |
| Geocode.SplitNoComma | assets/js/weather.js:77 | a text without commas splits into itself alone, untrimmed |
| Geocode.SplitFromShift | assets/js/weather.js:77 | the split loop does not depend on text before the current piece |
| Geocode.SplitCons | assets/js/weather.js:77 | a comma and the whitespace on both sides of it split off the text before it, which becomes the first piece |
| Geocode.IsFiveDigits | assets/js/weather.js:82 | `/^\d{5}$/` accepts exactly five ASCII digits; such a text contains no comma and no whitespace |
| Geocode.FiveDigitsExamples | assets/js/weather.js:82 | a zip code is accepted; a trailing line feed (no `m` flag), a leading space, four digits and a non-ASCII digit are rejected |
| Geocode.Classify | assets/js/weather.js:80-115 | one piece of five digits is a zip code, any other single piece a place name, two pieces city and state, three or more city, state and country from the first three pieces |
| Geocode.ZipQuery | assets/js/weather.js:82-85 | a five-digit text asks the zip endpoint for "<zip>,us" with the key appended |
| Geocode.ZipURL | assets/js/weather.js:84-85 | the zip URL written out as a literal |
| Geocode.PlaceQuery | assets/js/weather.js:86-90 | any other comma-free text asks the direct endpoint for the encoded text |
| Geocode.CityStateQuery | assets/js/weather.js:92-101 | "city , state" with any whitespace around the comma stores encode(city),encode(state),encode("us") |
| Geocode.ExtraPiecesIgnored | assets/js/weather.js:103-111 | with three or more pieces only the first three make up the location |
| Geocode.Location | assets/js/weather.js:84-112 | the stored location: the zip code followed by ",us", unencoded (line 84); the encoded place name (line 88); encoded city, state and "us" joined by commas (lines 99-100); encoded city, state and country joined by commas (lines 111-112) |
| Geocode.CityStateDefaultsToUs | assets/js/weather.js:94-99 | a city/state query stores the same location as the query with country "us" |
| Geocode.SplitJoinedThree | assets/js/weather.js:77 | three comma-free pieces without edge whitespace, joined by commas, split back into themselves |
| Geocode.LocationSplitsBack | assets/js/weather.js:77-112 | when the encoding emits no comma and no edge whitespace, as `encodeURIComponent` does, the stored city/state location splits back into the three encoded pieces, and those pieces classify as the same city, state and country |
| Geocode.GeocodeURL | assets/js/weather.js:116 | a zip query gives https://api.openweathermap.org/geo/1.0/zip?zip=<location>&appid=<key>; any other query gives https://api.openweathermap.org/geo/1.0/direct?q=<location>&appid=<key> |
| Geocode.KeyValueStore.SetItem | assets/js/weather.js:84 | `setItem` binds the key and leaves every other key alone |
| Geocode.KeyValueStore.GetItem | assets/js/weather.js:85 | `getItem` returns the stored value, or nothing for a missing key |
| Geocode.GetParams | assets/js/weather.js:34-36 | the parameter string is appid=<key>&units=imperial&lang=en, entries in declaration order |
| Geocode.JoinThree | assets/js/weather.js:35 | joining three strings with a separator puts it between each pair |
| Geocode.JoinWith | assets/js/weather.js:35 | `join` of no pieces is empty, and a joined text starts with its first piece (also the joins at lines 99 and 111) |
| Geocode.JoinSnoc | assets/js/weather.js:35 | appending a piece to the joined pieces appends the separator and the piece: `join` is a left fold |
| Geocode.Interpolate | assets/js/weather.js:85 | `${localStorage.getItem(...)}` yields the stored text, or "null" for a missing key (also at lines 89 and 101) |
| Geocode.DataURL | assets/js/weather.js:164-173 | the data URL is base/path?lat=..&lon=..&<parameters>, as for current conditions and (lines 195-204) the forecast |
| Geocode.Weather.constructor | assets/js/weather.js:26-28 | the key given at construction is the appid |
| Geocode.Weather.GetGeocodeURL | assets/js/weather.js:73-119 | stores the location of the classified query under "location" and nothing else, and returns base/path?key=<stored location>&appid=<key> |
| Display.Amount | assets/js/weather.js:559-580 | an absent amount is 0; a present one is its millimetres in inches; the result is 0 exactly when the amount is absent or zero |
| Display.CurrentPrecip | assets/js/weather.js:559-580 | four entries, keyed rain_1h, rain_3h, snow_1h, snow_3h in that order, each the amount of the matching optional reading |
| Display.ForecastPrecip | assets/js/weather.js:843-858 | two entries, keyed rain_3h and snow_3h, each the amount of the item's three-hour reading |
| Display.NonZero | assets/js/weather.js:658 | the listed entries are exactly the non-zero ones, in record order |
| Display.NonZeroCounts | assets/js/weather.js:658 | the filter keeps every copy of a non-zero entry and no copy of a zero one |
| Display.EntryListed | assets/js/weather.js:559-580 | an entry of rain_1h, rain_3h, snow_1h, snow_3h is listed exactly when the response carries a non-zero amount for it |
| Display.ForecastEntryListed | assets/js/weather.js:843-858 | a forecast entry (rain_3h, snow_3h) is listed exactly when the item carries a non-zero three-hour amount for it |
| Display.NonZeroAllZero | assets/js/weather.js:658 | all-zero entries list nothing |
| Display.DryObservation | assets/js/weather.js:559-580 | a response without rain and snow lists no precipitation line |
| Display.CurrentLabels | assets/js/weather.js:659-664 | the four current-conditions labels: rain or snow symbol, a space, "last hour" or "last 3 hours" |
| Display.ForecastLabels | assets/js/weather.js:926-929 | the two forecast labels: rain or snow symbol followed by " expected" |
| Display.CurrentLabel | assets/js/weather.js:659-664 | a rain key gets the droplet, a snow key the snowflake, then a space, then "last hour" for a 1h key or "last 3 hours" for a 3h key |
| Display.AffixesByConcatenation | assets/js/weather.js:660-664 | `startsWith` (modelled by `Display.StartsWith`) holds exactly when the text is the prefix followed by the rest, and `endsWith` (`Display.EndsWith`) exactly when it is the rest followed by the suffix; the forecast labels at lines 927-928 use the same test |
| Display.ForecastLabel | assets/js/weather.js:926-929 | a rain key gives the droplet and a snow key the snowflake, followed by " expected" |
| Display.CurrentPrecipLines | assets/js/weather.js:658-666 | one line per non-zero entry, at most four, none with a zero amount, in the record order rain_1h, rain_3h, snow_1h, snow_3h (a subsequence of the lines of all four entries) |
| Display.ForecastPrecipLines | assets/js/weather.js:925-930 | one line per non-zero entry, at most two, none with a zero amount, rain_3h before snow_3h (a subsequence of the lines of both entries) |
| Display.SubsequenceMapped | assets/js/weather.js:658-666 | mapping every element to its line keeps a subsequence a subsequence, so the lines keep the order of the filtered entries |
| Display.CurrentLabelsDistinct | assets/js/weather.js:659-664 | the four current-conditions labels are pairwise different |
| Display.ForecastLabelsDistinct | assets/js/weather.js:926-929 | the two forecast labels are different |
| Display.CurrentLineListed | assets/js/weather.js:559-666 | the cell shows the line of a key, with its label and its amount in inches, exactly when the response carries a non-zero amount for that key |
| Display.ForecastLineListed | assets/js/weather.js:843-930 | a forecast cell shows the line of rain_3h or snow_3h exactly when the item carries a non-zero three-hour amount for it |
| Display.CurrentPod | assets/js/weather.js:556 | the part of day is "d" exactly when the observation time lies strictly between sunrise and sunset, otherwise "n" |
| Display.CellClass | assets/js/weather.js:687-697 | header cells get "col_name"; data cells get "pod_day" by day, "pod_night" by night and no class for any other part-of-day value |
| Display.CellClasses | assets/js/weather.js:686-702 | one class per row, in row order, each the class of that row |
| Display.HeadersFirst | assets/js/weather.js:584-932 | in the current grid (lines 584-680) and the forecast values (lines 860-932) exactly the first two cells are headers |
| Display.CurrentCellsMarked | assets/js/weather.js:686-697 | every data cell of the current-conditions grid is marked day or night, never left without a class |
| Tabbox.Replace | assets/js/tabbox.js:85-86 | `classList.replace` does nothing when the token is absent and otherwise swaps in the new token |
| Tabbox.At | assets/js/tabbox.js:29 | `at` counts a negative index from the end |
| Tabbox.FirstWith | assets/js/tabbox.js:71-76 | the index of the first element carrying the class, or none when no element carries it |
| Tabbox.MarkTab | assets/js/tabbox.js:29 | only the chosen tab changes, gaining "selected" |
| Tabbox.MarkPanels | assets/js/tabbox.js:32 | panel sidx gains "show_panel", every other panel "hide_panel" |
| Tabbox.PanelClass | assets/js/tabbox.js:32 | the panel class is "show_panel" exactly when the panel index is sidx (strict `!==`) and "hide_panel" exactly otherwise (also at line 37) |
| Tabbox.SelectTab | assets/js/tabbox.js:77-82 | fails exactly when no tab is selected; otherwise the first selected tab loses "selected", tab t gains it and no other tab changes |
| Tabbox.SelectPanel | assets/js/tabbox.js:83-88 | fails exactly when no panel is shown; otherwise the first shown panel is hidden, panel p is shown if it was hidden and no other panel changes |
| Tabbox.Click | assets/js/tabbox.js:90-97 | the click throws exactly when the tab has a panel and no tab is selected or no panel is shown. Without a panel, or with no selected tab, nothing changes. Without a shown panel the panels stay as they were. Otherwise tab i ends selected |
| Tabbox.ConsistentAtUnique | assets/js/tabbox.js:71-73 | under the widget's invariant the selected tab found is the invariant's index |
| Tabbox.ConstructionConsistent | assets/js/tabbox.js:14-33 | building over unmarked markup with an index that names a tab and a panel leaves exactly that tab selected and that panel shown, all others hidden |
| Tabbox.NegativeIndexHidesAll | assets/js/tabbox.js:29-32 | a negative index selects a tab counted from the end but hides every panel |
| Tabbox.ClickPreservesConsistency | assets/js/tabbox.js:89-98 | a click on a tab with a panel succeeds and moves the invariant to that index |
| Tabbox.ClickSelectedUnchanged | assets/js/tabbox.js:89-98 | clicking the tab already selected changes nothing |
| Tabbox.ReapplyDefaultBreaksConsistency | assets/js/tabbox.js:34-39 | after a click elsewhere, `setDefaultSelectedTab` leaves two selected tabs and a panel that is both shown and hidden |
| Tabbox.Tabbox.constructor | assets/js/tabbox.js:14-33 | the tab at(sidx) is marked selected and every panel shown or hidden |
| Tabbox.Tabbox.GetSelectedTab | assets/js/tabbox.js:71-73 | the first selected tab, or none when no tab carries "selected" |
| Tabbox.Tabbox.GetSelectedPanel | assets/js/tabbox.js:74-76 | the first shown panel, or none when no panel carries "show_panel" |
| Tabbox.Tabbox.SetSelectedTab | assets/js/tabbox.js:77-82 | the tabs become SelectTab of the old tabs; a TypeError leaves them unchanged |
| Tabbox.Tabbox.SetSelectedPanel | assets/js/tabbox.js:83-88 | the panels become SelectPanel of the old panels; a TypeError leaves them unchanged |
| Tabbox.Tabbox.ClickTab | assets/js/tabbox.js:90-97 | the new tabs, panels and outcome are those of the click function: tab then panel of the same index, nothing without such a panel, and the tab change kept when the panel step throws |
| Tabbox.Tabbox.SetDefaultSelectedTab | assets/js/tabbox.js:34-39 | stores the argument in the public `sidx` and re-adds the markers at the private index, ignoring the argument |
| Tabbox.Tabbox.SetTabbarDirection | assets/js/tabbox.js:41-42 | returns the widget and changes nothing |
| Tabbox.MarkEachPanel | assets/js/tabbox.js:32 | the `forEach` over the panels adds each panel's class, as MarkPanels |

## Left out

- Dewpoint, the `toFixed` formatters, `percentFormat`, `pressure_hPaFormat` and `Math.round`: these are floating-point formatting and logarithms. Reals do not model them.
- Conversions.Direction: a missing `wind.deg` reaches `direction` as `undefined`; every comparison is then false and the result is "N". A real-valued parameter cannot carry that input.
- Floating point in general: every conversion is exact over the reals. Rounding of the divisions is not modelled.
- Clock.TimeToHhmm and Clock.GetDotW: the browser's local time zone and daylight saving are an explicit fixed offset. Fractional timestamps are not modelled.
- `fetch`, `async`/`await`, `jsonResponse`, `getGeocode`, `getWeather` and `getForecast` are network I/O. The model starts from the fields of a response.
- The `localStorage` reads of "geo" and "name", and `JSON.parse`/`JSON.stringify`: Geocode.DataURL takes latitude and longitude as strings.
- HTML markup: `fieldName`, `fieldValue`, `removeChildren`, `querySelector`, `append`, and the `<strong>`/`<br>` text around labels. The model states the label text, the amount and each cell's class.
- Geocode.Weather.constructor: the key is a parameter instead of the value of the `#api_key` input.
- Geocode.Weather.GetGeocodeURL: the search text is a parameter instead of the `#query` input.
- Tabbox.Tabbox.ClickTab: the click is modelled as a click on tab i itself. `ev.target` being a child element of the tab is not modelled.
- Tabbox.Tabbox.ClickTab: registering the listeners in `action` is not modelled.
- Tabbox.Tabbox.constructor: it requires `at(sidx)` to name a tab. Without one the source throws, and the model excludes that case.
- Tabbox.Tabbox.constructor: element lookup through `querySelector` is not modelled. The constructor takes the initial class lists of tabs and panels.
- Tabbox.Tabbox.SetTabbarDirection: the unreachable `switch` after the early return is not modelled.
- Strings are sequences of Unicode scalar values, not UTF-16 code units.
- `assets/js/script.js` is not part of this model.
