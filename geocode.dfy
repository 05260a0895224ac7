/** Query parsing and URL building of the `Weather` class
    (`getGeocodeURL`, `getParams` in assets/js/weather.js). The query text is
    split on commas with surrounding whitespace, classified as a US zip code,
    a place name, a city/state pair or a city/state/country triple, its
    `location` value is written to key-value storage and read back into the
    geocoding URL. `encodeURIComponent` is a parameter of the model. */
module Geocode {
  import opened Wrappers

  const Country: string := "us"
  const Base: string := "https://api.openweathermap.org"
  const DirectPath: string := "geo/1.0/direct"
  const ZipPath: string := "geo/1.0/zip"
  const WeatherPath: string := "data/2.5/weather"
  const ForecastPath: string := "data/2.5/forecast"

  // ---------------------------------------------------------------------
  // query.split(/\s*,\s*/)
  // ---------------------------------------------------------------------

  /** The characters `\s` matches in a JavaScript regular expression: the
      WhiteSpace and LineTerminator code points. */
  predicate IsSpace(c: char)
    ensures IsSpace(c) ==> c != ','
  {
    c == '\t' || c == '\n' || c == '\U{B}' || c == '\U{C}' || c == '\r' || c == ' '
    || c == '\U{A0}' || c == '\U{1680}' || ('\U{2000}' <= c <= '\U{200A}')
    || c == '\U{2028}' || c == '\U{2029}' || c == '\U{202F}' || c == '\U{205F}'
    || c == '\U{3000}' || c == '\U{FEFF}'
  }

  /** Every character of `w` is whitespace. */
  predicate AllSpace(w: string)
  {
    forall k :: 0 <= k < |w| ==> IsSpace(w[k])
  }

  /** The first index at or after `i` that is not whitespace (or |s|). */
  function SkipSpace(s: string, i: nat): (j: nat)
    requires i <= |s|
    ensures i <= j <= |s|
    ensures forall k :: i <= k < j ==> IsSpace(s[k])
    ensures j < |s| ==> !IsSpace(s[j])
    decreases |s| - i
  {
    if i < |s| && IsSpace(s[i]) then SkipSpace(s, i + 1) else i
  }

  /** A match of the pattern `\s*,\s*` anchored at `q`: the index just past it, if the
      pattern matches there. Both `\s*` are greedy; the first cannot give
      back whitespace to match the comma, so a match exists exactly when the
      first non-space character from `q` on is a comma. */
  function MatchAt(s: string, q: nat): (e: Option<nat>)
    requires q <= |s|
    ensures e.Some? ==> q < e.value <= |s|
  {
    var j := SkipSpace(s, q);
    if j < |s| && s[j] == ',' then Some(SkipSpace(s, j + 1)) else None
  }

  /** A match spans exactly one comma; where there is none, the character at
      `q` is not a comma. */
  lemma MatchAtCommas(s: string, q: nat)
    requires q <= |s|
    ensures MatchAt(s, q).Some? ==> multiset(s[q..MatchAt(s, q).value])[','] == 1
    ensures MatchAt(s, q).None? ==> q == |s| || s[q] != ','
  {
    var j := SkipSpace(s, q);
    if j < |s| && s[j] == ',' {
      OneCommaBetween(s, q, j, SkipSpace(s, j + 1));
    }
  }

  /** Whitespace, one comma at `j`, whitespace: one comma in s[q..e]. */
  lemma OneCommaBetween(s: string, q: nat, j: nat, e: nat)
    requires q <= j < e <= |s| && s[j] == ','
    requires forall k :: q <= k < j ==> IsSpace(s[k])
    requires forall k :: j + 1 <= k < e ==> IsSpace(s[k])
    ensures multiset(s[q..e])[','] == 1
  {
    assert s[q..e] == s[q..j] + [','] + s[j + 1..e];
    assert ',' !in s[q..j] && ',' !in s[j + 1..e];
  }

  /** No piece contains a comma. */
  predicate NoCommaPieces(parts: seq<string>)
  {
    forall i :: 0 <= i < |parts| ==> ',' !in parts[i]
  }

  /** A comma-free piece in front of comma-free pieces. */
  lemma NoCommaCons(piece: string, rest: seq<string>)
    requires ',' !in piece && NoCommaPieces(rest)
    ensures NoCommaPieces([piece] + rest)
  {
    var parts := [piece] + rest;
    forall i | 0 <= i < |parts|
      ensures ',' !in parts[i]
    {
      if i > 0 {
        assert parts[i] == rest[i - 1];
      }
    }
  }

  /** The split loop of `String.prototype.split` with a regular expression:
      `p` is the start of the current piece, `q` the position where a match
      is tried next. A match can never be empty, so the loop's "empty match"
      branch does not arise. */
  function SplitFrom(s: string, p: nat, q: nat): (parts: seq<string>)
    requires p <= q <= |s|
    ensures |parts| >= 1
    decreases |s| - q
  {
    if q == |s| then [s[p..]]
    else
      var m := MatchAt(s, q);
      if m.Some? then [s[p..q]] + SplitFrom(s, m.value, m.value)
      else SplitFrom(s, p, q + 1)
  }

  /** The loop yields one piece per remaining comma plus one, and no piece
      contains a comma. */
  lemma {:induction false} SplitFromPieces(s: string, p: nat, q: nat)
    requires p <= q <= |s|
    requires ',' !in s[p..q]
    ensures |SplitFrom(s, p, q)| == multiset(s[q..])[','] + 1
    ensures NoCommaPieces(SplitFrom(s, p, q))
    decreases |s| - q
  {
    if q < |s| {
      MatchAtCommas(s, q);
      var m := MatchAt(s, q);
      if m.Some? {
        assert s[m.value..m.value] == [];
        SplitFromPieces(s, m.value, m.value);
        PiecesMatchStep(s, p, q, m.value);
      } else {
        assert s[p..q + 1] == s[p..q] + [s[q]];
        SplitFromPieces(s, p, q + 1);
        PiecesNoMatchStep(s, p, q);
      }
    }
  }

  /** One step of SplitFromPieces where a match starting at `q` ends at `e`. */
  lemma PiecesMatchStep(s: string, p: nat, q: nat, e: nat)
    requires p <= q < |s|
    requires ',' !in s[p..q]
    requires MatchAt(s, q) == Some(e)
    requires multiset(s[q..e])[','] == 1
    requires |SplitFrom(s, e, e)| == multiset(s[e..])[','] + 1
    requires NoCommaPieces(SplitFrom(s, e, e))
    ensures |SplitFrom(s, p, q)| == multiset(s[q..])[','] + 1
    ensures NoCommaPieces(SplitFrom(s, p, q))
  {
    CommaCountSplit(s, q, e);
    assert SplitFrom(s, p, q) == [s[p..q]] + SplitFrom(s, e, e);
    NoCommaCons(s[p..q], SplitFrom(s, e, e));
  }

  /** Commas in s[q..] are those in s[q..e] plus those in s[e..]. */
  lemma CommaCountSplit(s: string, q: nat, e: nat)
    requires q <= e <= |s|
    ensures multiset(s[q..])[','] == multiset(s[q..e])[','] + multiset(s[e..])[',']
  {
    assert s[q..] == s[q..e] + s[e..];
  }

  /** One step of SplitFromPieces where no match starts at `q`. */
  lemma PiecesNoMatchStep(s: string, p: nat, q: nat)
    requires p <= q < |s|
    requires MatchAt(s, q).None? && s[q] != ','
    requires |SplitFrom(s, p, q + 1)| == multiset(s[q + 1..])[','] + 1
    requires NoCommaPieces(SplitFrom(s, p, q + 1))
    ensures |SplitFrom(s, p, q)| == multiset(s[q..])[','] + 1
    ensures NoCommaPieces(SplitFrom(s, p, q))
  {
    assert s[q..] == [s[q]] + s[q + 1..];
  }

  /** `s.split` on the pattern `\s*,\s*`. */
  function Split(s: string): (parts: seq<string>)
    ensures |parts| >= 1
  {
    SplitFrom(s, 0, 0)
  }

  /** One piece per comma plus one, none containing a comma; the empty string
      gives one empty piece. */
  lemma SplitPieces(s: string)
    ensures |Split(s)| == multiset(s)[','] + 1
    ensures NoCommaPieces(Split(s))
  {
    assert s[0..] == s;
    assert s[0..0] == [];
    SplitFromPieces(s, 0, 0);
  }

  /** Without a comma the split is the whole string, unchanged. */
  lemma {:induction false} SplitFromNoComma(s: string, p: nat, q: nat)
    requires p <= q <= |s|
    requires ',' !in s[p..]
    ensures SplitFrom(s, p, q) == [s[p..]]
    decreases |s| - q
  {
    if q < |s| {
      assert s[q] == s[p..][q - p];
      SplitFromNoComma(s, p, q + 1);
    }
  }

  /** A query without a comma is a single piece, kept verbatim (surrounding
      whitespace included). */
  lemma SplitNoComma(s: string)
    requires ',' !in s
    ensures Split(s) == [s]
  {
    assert s[0..] == s;
    SplitFromNoComma(s, 0, 0);
  }

  /** Whitespace skipping does not depend on a prefix. */
  lemma {:induction false} SkipSpaceShift(x: string, y: string, i: nat)
    requires i <= |y|
    ensures SkipSpace(x + y, |x| + i) == |x| + SkipSpace(y, i)
    decreases |y| - i
  {
    if i < |y| && IsSpace(y[i]) {
      assert (x + y)[|x| + i] == y[i];
      SkipSpaceShift(x, y, i + 1);
    } else if i < |y| {
      assert (x + y)[|x| + i] == y[i];
    }
  }

  /** Matching does not depend on a prefix. */
  lemma MatchAtShift(x: string, y: string, q: nat)
    requires q <= |y|
    ensures MatchAt(y, q).None? ==> MatchAt(x + y, |x| + q).None?
    ensures MatchAt(y, q).Some? ==> MatchAt(x + y, |x| + q) == Some(|x| + MatchAt(y, q).value)
  {
    SkipSpaceShift(x, y, q);
    var j := SkipSpace(y, q);
    if j < |y| {
      assert (x + y)[|x| + j] == y[j];
      SkipSpaceShift(x, y, j + 1);
    }
  }

  /** The split loop does not depend on a prefix before the current piece. */
  lemma {:induction false} SplitFromShift(x: string, y: string, p: nat, q: nat)
    requires p <= q <= |y|
    ensures SplitFrom(x + y, |x| + p, |x| + q) == SplitFrom(y, p, q)
    decreases |y| - q, 1
  {
    if q == |y| {
      ShiftEndStep(x, y, p);
    } else if MatchAt(y, q).Some? {
      ShiftMatchStep(x, y, p, q);
    } else {
      ShiftNoMatchStep(x, y, p, q);
    }
  }

  /** The last step of SplitFromShift, at the end of the input. */
  lemma ShiftEndStep(x: string, y: string, p: nat)
    requires p <= |y|
    ensures SplitFrom(x + y, |x| + p, |x| + |y|) == SplitFrom(y, p, |y|)
  {
    assert |x + y| == |x| + |y|;
    assert SplitFrom(y, p, |y|) == [y[p..]];
    assert SplitFrom(x + y, |x| + p, |x| + |y|) == [(x + y)[|x| + p..]];
    assert (x + y)[|x| + p..] == y[p..];
  }

  /** A step of SplitFromShift where no match starts at `q`. */
  lemma {:induction false} ShiftNoMatchStep(x: string, y: string, p: nat, q: nat)
    requires p <= q < |y|
    requires MatchAt(y, q).None?
    ensures SplitFrom(x + y, |x| + p, |x| + q) == SplitFrom(y, p, q)
    decreases |y| - q, 0
  {
    SplitFromShift(x, y, p, q + 1);
    MatchAtShift(x, y, q);
    assert SplitFrom(y, p, q) == SplitFrom(y, p, q + 1);
  }

  /** A step of SplitFromShift where a match starts at `q`. */
  lemma {:induction false} ShiftMatchStep(x: string, y: string, p: nat, q: nat)
    requires p <= q < |y|
    requires MatchAt(y, q).Some?
    ensures SplitFrom(x + y, |x| + p, |x| + q) == SplitFrom(y, p, q)
    decreases |y| - q, 0
  {
    var e := MatchAt(y, q).value;
    SplitFromShift(x, y, e, e);
    MatchAtShift(x, y, q);
    SliceShift(x, y, p, q);
    assert SplitFrom(y, p, q) == [y[p..q]] + SplitFrom(y, e, e);
    assert SplitFrom(x + y, |x| + p, |x| + q)
        == [(x + y)[|x| + p..|x| + q]] + SplitFrom(x + y, |x| + e, |x| + e);
  }

  /** Slicing after a prefix. */
  lemma SliceShift(x: string, y: string, p: nat, q: nat)
    requires p <= q <= |y|
    ensures (x + y)[|x| + p..|x| + q] == y[p..q]
  {
  }

  /** Splitting peels off the text before the first comma: whitespace on
      both sides of that comma is absorbed. Together with SplitNoComma this
      determines the split of every string. */
  lemma SplitCons(a: string, w1: string, w2: string, b: string)
    requires ',' !in a
    requires a == [] || !IsSpace(a[|a| - 1])
    requires AllSpace(w1) && AllSpace(w2)
    requires b == [] || !IsSpace(b[0])
    ensures Split(a + w1 + "," + w2 + b) == [a] + Split(b)
  {
    var pre := a + w1 + "," + w2;
    var s := pre + b;
    assert s == a + w1 + "," + w2 + b;
    assert s[..|a|] == a;
    NoMatchBefore(s, |a|);
    var e := SeparatorAfter(a, w1, w2, b);
    PeelPrefix(s, |a|);
    assert b[0..0] == [];
    SplitFromShift(pre, b, 0, 0);
    assert b[0..] == b;
  }

  /** The match right after `a` covers w1, the comma and w2. */
  lemma SeparatorAfter(a: string, w1: string, w2: string, b: string) returns (e: nat)
    requires AllSpace(w1) && AllSpace(w2)
    requires b == [] || !IsSpace(b[0])
    ensures e == |a + w1 + "," + w2|
    ensures MatchAt(a + w1 + "," + w2 + b, |a|) == Some(e)
  {
    var s := a + w1 + "," + w2 + b;
    var c := |a| + |w1|;
    e := c + 1 + |w2|;
    assert s[c] == ',';
    forall k | |a| <= k < c ensures IsSpace(s[k]) { assert s[k] == w1[k - |a|]; }
    forall k | c + 1 <= k < e ensures IsSpace(s[k]) { assert s[k] == w2[k - c - 1]; }
    assert e < |s| ==> s[e] == b[0];
    SkipTo(s, |a|, c);
    SkipTo(s, c + 1, e);
  }

  /** No match starts inside a comma-free prefix that ends in a non-space. */
  lemma NoMatchBefore(s: string, n: nat)
    requires n <= |s|
    requires ',' !in s[..n]
    requires n == 0 || !IsSpace(s[n - 1])
    ensures forall q :: 0 <= q < n ==> MatchAt(s, q).None?
  {
    forall q | 0 <= q < n
      ensures MatchAt(s, q).None?
    {
      var j := SkipSpace(s, q);
      assert j <= n - 1;
      assert s[j] == s[..n][j];
    }
  }

  /** SkipSpace from `i` stops at `j` when s[i..j] is whitespace and s[j] is
      not (or is the end). */
  lemma {:induction false} SkipTo(s: string, i: nat, j: nat)
    requires i <= j <= |s|
    requires forall k :: i <= k < j ==> IsSpace(s[k])
    requires j < |s| ==> !IsSpace(s[j])
    ensures SkipSpace(s, i) == j
    decreases j - i
  {
    if i < j {
      SkipTo(s, i + 1, j);
    }
  }

  /** The split loop walks over a comma-free, match-free prefix. */
  lemma {:induction false} PeelPrefix(s: string, n: nat)
    requires n <= |s|
    requires ',' !in s[..n]
    requires forall q :: 0 <= q < n ==> MatchAt(s, q).None?
    requires n < |s| && MatchAt(s, n).Some?
    ensures SplitFrom(s, 0, 0) == [s[0..n]] + SplitFrom(s, MatchAt(s, n).value, MatchAt(s, n).value)
  {
    var q := n;
    while q > 0
      invariant 0 <= q <= n
      invariant ',' !in s[0..q]
      invariant SplitFrom(s, 0, q) == [s[0..n]] + SplitFrom(s, MatchAt(s, n).value, MatchAt(s, n).value)
      decreases q
    {
      assert s[0..q] == s[0..q - 1] + [s[q - 1]];
      q := q - 1;
    }
  }

  // ---------------------------------------------------------------------
  // Classification
  // ---------------------------------------------------------------------

  /** /^\d{5}$/: exactly five ASCII digits. */
  predicate IsFiveDigits(s: string)
    ensures IsFiveDigits(s) ==> |s| == 5 && forall i :: 0 <= i < 5 ==> s[i] != ',' && !IsSpace(s[i])
  {
    |s| == 5 && forall i :: 0 <= i < 5 ==> '0' <= s[i] <= '9'
  }

  /** `$` without the `m` flag rejects a trailing line terminator, `^`
      leading text, and `\d` only ASCII digits. */
  lemma FiveDigitsExamples()
    ensures IsFiveDigits("02134")
    ensures !IsFiveDigits("02134\n") && !IsFiveDigits(" 02134") && !IsFiveDigits("0213")
    ensures !IsFiveDigits("0213\U{663}")
  {
    assert "02134\n"[..] != [] && |"02134\n"| == 6;
    assert "0213\U{663}"[4] == '\U{663}';
  }

  /** The four kinds of geocoding query. */
  datatype Query =
    | Zip(code: string)
    | Place(name: string)
    | CityState(city: string, state: string)
    | CityStateCountry(city: string, state: string, country: string)

  /** The `switch(query.length)`: one piece is a zip code or a place name,
      two are city and state, three or more are city, state and country
      (pieces after the third are ignored). */
  function Classify(parts: seq<string>): (q: Query)
    requires |parts| >= 1
    ensures q.Zip? <==> |parts| == 1 && IsFiveDigits(parts[0])
    ensures q.Place? <==> |parts| == 1 && !IsFiveDigits(parts[0])
    ensures q.CityState? <==> |parts| == 2
    ensures q.CityStateCountry? <==> |parts| >= 3
    ensures (q.Zip? ==> q.code == parts[0]) && (q.Place? ==> q.name == parts[0])
    ensures (q.CityState? || q.CityStateCountry?) ==> q.city == parts[0] && q.state == parts[1]
    ensures q.CityStateCountry? ==> q.country == parts[2]
  {
    if |parts| == 1 then
      if IsFiveDigits(parts[0]) then Zip(parts[0]) else Place(parts[0])
    else if |parts| == 2 then CityState(parts[0], parts[1])
    else CityStateCountry(parts[0], parts[1], parts[2])
  }

  /** The `location` value stored for a query: a zip code with ",us" not
      encoded; otherwise the encoded pieces joined by commas, with "us" as
      the country of a city/state query. */
  function Location(q: Query, encode: string -> string): (r: string)
    ensures q.Zip? ==> r == q.code + ",us"
    ensures q.Place? ==> r == encode(q.name)
    ensures q.CityState? ==> r == encode(q.city) + "," + encode(q.state) + "," + encode("us")
    ensures q.CityStateCountry? ==> r == encode(q.city) + "," + encode(q.state) + "," + encode(q.country)
  {
    match q
    case Zip(code) => code + "," + Country
    case Place(name) => encode(name)
    case CityState(city, state) => encode(city) + "," + encode(state) + "," + encode(Country)
    case CityStateCountry(city, state, country) =>
      encode(city) + "," + encode(state) + "," + encode(country)
  }

  /** The endpoint and query key of a geocoding request. */
  function PathAndKey(q: Query): string
  {
    if q.Zip? then ZipPath + "?zip=" else DirectPath + "?q="
  }

  /** The URL `getGeocodeURL` returns for a query text, given the location
      value it stores. */
  function GeocodeURL(q: Query, location: string, appid: string): (r: string)
    ensures q.Zip? ==> r == "https://api.openweathermap.org/geo/1.0/zip?zip=" + location + "&appid=" + appid
    ensures !q.Zip? ==> r == "https://api.openweathermap.org/geo/1.0/direct?q=" + location + "&appid=" + appid
  {
    AppendAssoc(Base + "/", ZipPath, "?zip=");
    AppendAssoc(Base + "/", DirectPath, "?q=");
    ZipPrefix();
    DirectPrefix();
    Base + "/" + PathAndKey(q) + location + "&appid=" + appid
  }

  /** Concatenation is associative. */
  lemma AppendAssoc(a: string, b: string, c: string)
    ensures a + (b + c) == a + b + c
  {
  }

  /** The zip URL prefix written out. */
  lemma ZipPrefix()
    ensures Base + "/" + ZipPath + "?zip=" == "https://api.openweathermap.org/geo/1.0/zip?zip="
  {
  }

  /** The direct URL prefix written out. */
  lemma DirectPrefix()
    ensures Base + "/" + DirectPath + "?q=" == "https://api.openweathermap.org/geo/1.0/direct?q="
  {
  }

  /** A city/state query stores what the same query with country "us"
      stores. */
  lemma CityStateDefaultsToUs(city: string, state: string, encode: string -> string)
    ensures Location(CityState(city, state), encode) == Location(CityStateCountry(city, state, Country), encode)
  {
  }

  /** A string with no comma and no whitespace at either end. */
  predicate PieceShaped(w: string)
  {
    ',' !in w && (w == [] || (!IsSpace(w[0]) && !IsSpace(w[|w| - 1])))
  }

  /** An encoding whose results contain no comma and do not start or end
      with whitespace, as `encodeURIComponent`, which escapes both. */
  ghost predicate SafeEncoding(encode: string -> string)
  {
    forall w :: PieceShaped(encode(w))
  }

  /** Three comma-free pieces joined by commas split back into themselves. */
  lemma SplitJoinedThree(a: string, b: string, c: string)
    requires PieceShaped(a) && PieceShaped(b) && PieceShaped(c)
    ensures Split(a + "," + b + "," + c) == [a, b, c]
  {
    var rest := b + "," + c;
    assert a + "," + b + "," + c == a + [] + "," + [] + rest;
    assert rest == b + [] + "," + [] + c;
    SplitCons(a, [], [], rest);
    SplitCons(b, [], [], c);
    SplitNoComma(c);
  }

  /** Under a safe encoding, the stored location of a city/state query
      splits back into the encoded city, state and country, so searching for
      it again asks for the same place. */
  lemma LocationSplitsBack(q: Query, encode: string -> string)
    requires SafeEncoding(encode)
    requires q.CityState? || q.CityStateCountry?
    ensures var country := if q.CityState? then Country else q.country;
      Split(Location(q, encode)) == [encode(q.city), encode(q.state), encode(country)]
      && Classify(Split(Location(q, encode))) == CityStateCountry(encode(q.city), encode(q.state), encode(country))
  {
    var country := if q.CityState? then Country else q.country;
    assert PieceShaped(encode(q.city)) && PieceShaped(encode(q.state)) && PieceShaped(encode(country));
    SplitJoinedThree(encode(q.city), encode(q.state), encode(country));
  }

  /** Five digits contain no comma. */
  lemma FiveDigitsNoComma(s: string)
    requires IsFiveDigits(s)
    ensures ',' !in s
  {
    assert forall i :: 0 <= i < |s| ==> s[i] != ',';
  }

  /** A five-digit query goes to the zip endpoint as "<zip>,us". */
  lemma ZipQuery(query: string, appid: string, encode: string -> string)
    requires IsFiveDigits(query)
    ensures Classify(Split(query)) == Zip(query)
    ensures var q := Classify(Split(query));
      GeocodeURL(q, Location(q, encode), appid)
        == "https://api.openweathermap.org/geo/1.0/zip?zip=" + query + ",us&appid=" + appid
  {
    FiveDigitsNoComma(query);
    SplitNoComma(query);
    ZipURL(query, appid);
  }

  /** The URL of a zip query, written out. */
  lemma ZipURL(code: string, appid: string)
    ensures GeocodeURL(Zip(code), code + "," + Country, appid)
         == "https://api.openweathermap.org/geo/1.0/zip?zip=" + code + ",us&appid=" + appid
  {
    var prefix := "https://api.openweathermap.org/geo/1.0/zip?zip=";
    assert Base + "/" + PathAndKey(Zip(code)) == prefix;
    assert code + "," + Country + "&appid=" == code + ",us&appid=";
  }

  /** Any other comma-free query is a place name, sent encoded to the direct
      endpoint. */
  lemma PlaceQuery(query: string, appid: string, encode: string -> string)
    requires ',' !in query && !IsFiveDigits(query)
    ensures Classify(Split(query)) == Place(query)
    ensures var q := Classify(Split(query));
      GeocodeURL(q, Location(q, encode), appid)
        == "https://api.openweathermap.org/geo/1.0/direct?q=" + encode(query) + "&appid=" + appid
  {
    SplitNoComma(query);
  }

  /** "city , state" becomes the encoded triple city,state,us. */
  lemma CityStateQuery(city: string, w1: string, w2: string, state: string, encode: string -> string)
    requires ',' !in city && ',' !in state
    requires city == [] || !IsSpace(city[|city| - 1])
    requires AllSpace(w1) && AllSpace(w2)
    requires state == [] || !IsSpace(state[0])
    ensures var q := Classify(Split(city + w1 + "," + w2 + state));
      q == CityState(city, state)
      && Location(q, encode) == encode(city) + "," + encode(state) + "," + encode("us")
  {
    SplitCons(city, w1, w2, state);
    SplitNoComma(state);
  }

  /** With three or more pieces only the first three are used. */
  lemma ExtraPiecesIgnored(parts: seq<string>, extra: seq<string>, encode: string -> string)
    requires |parts| == 3
    ensures Location(Classify(parts + extra), encode)
         == encode(parts[0]) + "," + encode(parts[1]) + "," + encode(parts[2])
  {
  }

  // ---------------------------------------------------------------------
  // Key-value storage and the URL builder
  // ---------------------------------------------------------------------

  /** The browser's key-value storage. */
  class KeyValueStore {
    var items: map<string, string>

    constructor (initial: map<string, string>)
      ensures items == initial
    {
      items := initial;
    }

    /** `setItem`: binds `key` to `value`, leaving every other key alone. */
    method SetItem(key: string, value: string)
      modifies this
      ensures items == old(items)[key := value]
    {
      items := items[key := value];
    }

    /** `getItem`: the value bound to `key`, or null (None). */
    function GetItem(key: string): (r: Option<string>)
      reads this
      ensures r.Some? <==> key in items
      ensures r.Some? ==> r.value == items[key]
    {
      if key in items then Some(items[key]) else None
    }
  }

  /** A template literal renders a null storage value as "null". */
  function Interpolate(v: Option<string>): (r: string)
    ensures v.None? ==> r == "null"
    ensures v.Some? ==> r == v.value
  {
    v.GetOr("null")
  }

  /** `getParams`: the fixed parameters as "k=v" pairs joined by '&', in
      their declaration order. */
  function GetParams(appid: string): (r: string)
    ensures r == "appid=" + appid + "&units=imperial&lang=en"
  {
    JoinThree(Entry("appid", appid), Entry("units", "imperial"), Entry("lang", "en"), "&");
    JoinWith([Entry("appid", appid), Entry("units", "imperial"), Entry("lang", "en")], "&")
  }

  /** One "k=v" pair. */
  function Entry(key: string, value: string): string
  {
    key + "=" + value
  }

  /** `Array.prototype.join`. */
  function JoinWith(pieces: seq<string>, sep: string): (r: string)
    ensures pieces == [] ==> r == ""
    ensures pieces != [] ==> |pieces[0]| <= |r| && r[..|pieces[0]|] == pieces[0]
  {
    if pieces == [] then ""
    else if |pieces| == 1 then pieces[0]
    else pieces[0] + sep + JoinWith(pieces[1..], sep)
  }

  /** `join` as a left fold: appending a piece appends the separator and the
      piece. */
  lemma {:induction false} JoinSnoc(pieces: seq<string>, last: string, sep: string)
    requires pieces != []
    ensures JoinWith(pieces + [last], sep) == JoinWith(pieces, sep) + sep + last
  {
    if |pieces| == 1 {
      assert (pieces + [last])[1..] == [last];
    } else {
      assert (pieces + [last])[1..] == pieces[1..] + [last];
      JoinSnoc(pieces[1..], last, sep);
    }
  }

  /** Joining three pieces. */
  lemma JoinThree(a: string, b: string, c: string, sep: string)
    ensures JoinWith([a, b, c], sep) == a + sep + b + sep + c
  {
    assert [a, b, c][1..] == [b, c];
    JoinTwo(b, c, sep);
  }

  /** Joining two pieces. */
  lemma JoinTwo(a: string, b: string, sep: string)
    ensures JoinWith([a, b], sep) == a + sep + b
  {
    assert [a, b][1..] == [b];
  }

  /** The current-conditions or forecast URL for given coordinates: the
      coordinates in the order lat, lon, then the fixed parameters. */
  function DataURL(path: string, lat: string, lon: string, appid: string): (r: string)
    ensures r == Base + "/" + path + "?lat=" + lat + "&lon=" + lon
               + "&appid=" + appid + "&units=imperial&lang=en"
  {
    JoinTwo("lat=" + lat, "lon=" + lon, "&");
    Base + "/" + path + "?" + JoinWith(["lat=" + lat, "lon=" + lon], "&") + "&" + GetParams(appid)
  }

  /** The `Weather` object: its API key is read once, at construction. */
  class Weather {
    const appid: string

    constructor (apiKey: string)
      ensures appid == apiKey
    {
      appid := apiKey;
    }

    /** `getGeocodeURL`: splits and classifies the query, writes its location
        to storage under "location", reads it back into the URL. */
    method GetGeocodeURL(query: string, storage: KeyValueStore, encode: string -> string)
      returns (url: string)
      modifies storage
      ensures var q := Classify(Split(query));
        storage.items == old(storage.items)["location" := Location(q, encode)]
      ensures url == GeocodeURL(Classify(Split(query)), storage.items["location"], appid)
    {
      var parts := Split(query);
      var str: string;
      if |parts| == 1 {
        if IsFiveDigits(parts[0]) {
          storage.SetItem("location", parts[0] + "," + Country);
          str := ZipPath + "?zip=" + Interpolate(storage.GetItem("location"));
        } else {
          storage.SetItem("location", encode(parts[0]));
          str := DirectPath + "?q=" + Interpolate(storage.GetItem("location"));
        }
      } else if |parts| == 2 {
        var qParams := JoinWith([encode(parts[0]), encode(parts[1]), encode(Country)], ",");
        JoinThree(encode(parts[0]), encode(parts[1]), encode(Country), ",");
        storage.SetItem("location", qParams);
        str := DirectPath + "?q=" + Interpolate(storage.GetItem("location"));
      } else {
        var qParams := JoinWith([encode(parts[0]), encode(parts[1]), encode(parts[2])], ",");
        JoinThree(encode(parts[0]), encode(parts[1]), encode(parts[2]), ",");
        storage.SetItem("location", qParams);
        str := DirectPath + "?q=" + Interpolate(storage.GetItem("location"));
      }
      URLAssembly(Classify(parts), storage.items["location"], str, appid);
      url := Base + "/" + str + "&appid=" + appid;
    }
  }

  /** The URL built from the endpoint string `str` is GeocodeURL. */
  lemma URLAssembly(q: Query, location: string, str: string, appid: string)
    requires str == PathAndKey(q) + location
    ensures Base + "/" + str + "&appid=" + appid == GeocodeURL(q, location, appid)
  {
    assert Base + "/" + str == Base + "/" + PathAndKey(q) + location;
  }
}
