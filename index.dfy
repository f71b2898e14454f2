/**
 * The lookup layer over the ISO 3166-1 country table: one bulk accessor and four
 * point lookups, each a first-match scan of the table with its own key normalisation.
 * The table itself is a parameter; the properties that depend on its contents
 * (unique keys, upper-case codes) are stated as predicates and required by the
 * lemmas that need them.
 */
module Iso3166 {

  import opened Wrappers
  import opened Ascii
  import opened Decimal
  import opened Search

  /** One record of the table: display name, alpha-2, alpha-3 and numeric-3 codes, all text. */
  datatype Country = Country(country: string, alpha2: string, alpha3: string, num3: string)

  /** The argument of `findNum3`, which accepts a string or a (non-negative integer) number. */
  datatype Key = Str(text: string) | Num(n: nat)

  /** `String(key)`: a string stays as it is, a number becomes its decimal text with no padding. */
  function KeyText(key: Key): (t: string)
    ensures key.Str? ==> t == key.text
    ensures key.Num? ==> IsCanonical(t) && DecimalToNat(t) == key.n
  {
    match key
    case Str(s) => s
    case Num(n) => DecimalOfNat(n); NatToDecimal(n)
  }

  // The predicates each lookup hands to `find`.

  predicate NameMatches(name: string, c: Country) {
    Upper(c.country) == Upper(name)
  }

  predicate Alpha2Matches(code: string, c: Country) {
    c.alpha2 == Upper(code)
  }

  predicate Alpha3Matches(code: string, c: Country) {
    c.alpha3 == Upper(code)
  }

  predicate Num3Matches(key: Key, c: Country) {
    c.num3 == KeyText(key)
  }

  /** `getAllCountries`: the table itself, same records in the same order. */
  function GetAllCountries(countries: seq<Country>): (r: seq<Country>)
    ensures |r| == |countries|
    ensures forall i :: 0 <= i < |r| ==> r[i] == countries[i]
  {
    countries
  }

  /** `findCountry`: the first record whose name equals `name` once both are upper-cased. */
  function FindCountry(countries: seq<Country>, name: string): (r: Option<Country>)
    ensures r.None? <==> forall i :: 0 <= i < |countries| ==> Upper(countries[i].country) != Upper(name)
    ensures r.Some? ==> exists i :: 0 <= i < |countries| && countries[i] == r.value
                                    && Upper(r.value.country) == Upper(name)
                                    && forall j :: 0 <= j < i ==> Upper(countries[j].country) != Upper(name)
  {
    FindFirst(countries, c => NameMatches(name, c))
  }

  /** `findAlpha2`: the first record whose stored alpha-2 equals the upper-cased query. */
  function FindAlpha2(countries: seq<Country>, code: string): (r: Option<Country>)
    ensures r.None? <==> forall i :: 0 <= i < |countries| ==> countries[i].alpha2 != Upper(code)
    ensures r.Some? ==> exists i :: 0 <= i < |countries| && countries[i] == r.value
                                    && r.value.alpha2 == Upper(code)
                                    && forall j :: 0 <= j < i ==> countries[j].alpha2 != Upper(code)
  {
    FindFirst(countries, c => Alpha2Matches(code, c))
  }

  /** `findAlpha3`: the first record whose stored alpha-3 equals the upper-cased query. */
  function FindAlpha3(countries: seq<Country>, code: string): (r: Option<Country>)
    ensures r.None? <==> forall i :: 0 <= i < |countries| ==> countries[i].alpha3 != Upper(code)
    ensures r.Some? ==> exists i :: 0 <= i < |countries| && countries[i] == r.value
                                    && r.value.alpha3 == Upper(code)
                                    && forall j :: 0 <= j < i ==> countries[j].alpha3 != Upper(code)
  {
    FindFirst(countries, c => Alpha3Matches(code, c))
  }

  /** `findNum3`: the first record whose stored numeric code equals `String(key)` exactly. */
  function FindNum3(countries: seq<Country>, key: Key): (r: Option<Country>)
    ensures r.None? <==> forall i :: 0 <= i < |countries| ==> countries[i].num3 != KeyText(key)
    ensures r.Some? ==> exists i :: 0 <= i < |countries| && countries[i] == r.value
                                    && r.value.num3 == KeyText(key)
                                    && forall j :: 0 <= j < i ==> countries[j].num3 != KeyText(key)
  {
    FindFirst(countries, c => Num3Matches(key, c))
  }

  // Properties of the table that the round trips rely on.

  predicate UniqueNames(countries: seq<Country>) {
    forall i, j ::
      0 <= i < |countries| && 0 <= j < |countries| && Upper(countries[i].country) == Upper(countries[j].country) ==> i == j
  }

  predicate UniqueAlpha2(countries: seq<Country>) {
    forall i, j ::
      0 <= i < |countries| && 0 <= j < |countries| && countries[i].alpha2 == countries[j].alpha2 ==> i == j
  }

  predicate UniqueAlpha3(countries: seq<Country>) {
    forall i, j ::
      0 <= i < |countries| && 0 <= j < |countries| && countries[i].alpha3 == countries[j].alpha3 ==> i == j
  }

  predicate UniqueNum3(countries: seq<Country>) {
    forall i, j ::
      0 <= i < |countries| && 0 <= j < |countries| && countries[i].num3 == countries[j].num3 ==> i == j
  }

  // findCountry

  /** Queries with the same upper-case form find the same record. */
  lemma FindCountryCaseInsensitive(countries: seq<Country>, a: string, b: string)
    requires Upper(a) == Upper(b)
    ensures FindCountry(countries, a) == FindCountry(countries, b)
  {
    FindFirstCongruent(countries, c => NameMatches(a, c), c => NameMatches(b, c));
  }

  /** Upper-casing the query first changes nothing. */
  lemma FindCountryUpperQuery(countries: seq<Country>, name: string)
    ensures FindCountry(countries, Upper(name)) == FindCountry(countries, name)
  {
    UpperIsUpper(name);
    FindCountryCaseInsensitive(countries, Upper(name), name);
  }

  /** ASCII upper-casing keeps lengths, so a name whose length is that of no stored name misses. */
  lemma FindCountryLengthMismatch(countries: seq<Country>, name: string)
    requires forall i :: 0 <= i < |countries| ==> |countries[i].country| != |name|
    ensures FindCountry(countries, name) == None
  {
  }

  /** When record `i` is the first to match, `FindCountry` returns it. */
  lemma FindCountryFirst(countries: seq<Country>, i: int, name: string)
    requires 0 <= i < |countries| && Upper(countries[i].country) == Upper(name)
    requires forall j :: 0 <= j < i ==> !(Upper(countries[j].country) == Upper(name))
    ensures FindCountry(countries, name) == Some(countries[i])
  {
    FindFirstAt(countries, c => NameMatches(name, c), i);
  }

  /** With names distinct under upper-casing, any casing of a stored name finds its record. */
  lemma FindCountryFinds(countries: seq<Country>, i: int, name: string)
    requires UniqueNames(countries)
    requires 0 <= i < |countries| && Upper(name) == Upper(countries[i].country)
    ensures FindCountry(countries, name) == Some(countries[i])
  {
    FindFirstAt(countries, c => NameMatches(name, c), i);
  }

  /** Round trip: looking a record up by its own name returns it. */
  lemma FindCountryRoundTrip(countries: seq<Country>, r: Country)
    requires UniqueNames(countries)
    requires r in countries
    ensures FindCountry(countries, r.country) == Some(r)
  {
    var i :| 0 <= i < |countries| && countries[i] == r;
    FindCountryFinds(countries, i, r.country);
  }

  // findAlpha2

  /** A hit carries exactly the upper-cased query, which is its own upper-case form:
      a record stored with a lower-case alpha-2 is never returned. */
  lemma FindAlpha2Hit(countries: seq<Country>, code: string)
    requires FindAlpha2(countries, code).Some?
    ensures FindAlpha2(countries, code).value.alpha2 == Upper(code)
    ensures IsUpper(FindAlpha2(countries, code).value.alpha2)
  {
    UpperIsUpper(code);
  }

  lemma FindAlpha2CaseInsensitive(countries: seq<Country>, a: string, b: string)
    requires Upper(a) == Upper(b)
    ensures FindAlpha2(countries, a) == FindAlpha2(countries, b)
  {
    FindFirstCongruent(countries, c => Alpha2Matches(a, c), c => Alpha2Matches(b, c));
  }

  /** A query whose length is that of no stored alpha-2 (such as "xxx") misses. */
  lemma FindAlpha2LengthMismatch(countries: seq<Country>, code: string)
    requires forall i :: 0 <= i < |countries| ==> |countries[i].alpha2| != |code|
    ensures FindAlpha2(countries, code) == None
  {
  }

  /** When record `i` is the first to match, `FindAlpha2` returns it. */
  lemma FindAlpha2First(countries: seq<Country>, i: int, code: string)
    requires 0 <= i < |countries| && countries[i].alpha2 == Upper(code)
    requires forall j :: 0 <= j < i ==> !(countries[j].alpha2 == Upper(code))
    ensures FindAlpha2(countries, code) == Some(countries[i])
  {
    FindFirstAt(countries, c => Alpha2Matches(code, c), i);
  }

  lemma FindAlpha2Finds(countries: seq<Country>, i: int, code: string)
    requires UniqueAlpha2(countries)
    requires 0 <= i < |countries| && Upper(code) == countries[i].alpha2
    ensures FindAlpha2(countries, code) == Some(countries[i])
  {
    FindFirstAt(countries, c => Alpha2Matches(code, c), i);
  }

  /** Round trip over a table of distinct alpha-2 codes, for a record whose code is upper case. */
  lemma FindAlpha2RoundTrip(countries: seq<Country>, r: Country)
    requires UniqueAlpha2(countries)
    requires r in countries && IsUpper(r.alpha2)
    ensures FindAlpha2(countries, r.alpha2) == Some(r)
  {
    var i :| 0 <= i < |countries| && countries[i] == r;
    IsUpperIffFixed(r.alpha2);
    FindAlpha2Finds(countries, i, r.alpha2);
  }

  // findAlpha3

  lemma FindAlpha3Hit(countries: seq<Country>, code: string)
    requires FindAlpha3(countries, code).Some?
    ensures FindAlpha3(countries, code).value.alpha3 == Upper(code)
    ensures IsUpper(FindAlpha3(countries, code).value.alpha3)
  {
    UpperIsUpper(code);
  }

  lemma FindAlpha3CaseInsensitive(countries: seq<Country>, a: string, b: string)
    requires Upper(a) == Upper(b)
    ensures FindAlpha3(countries, a) == FindAlpha3(countries, b)
  {
    FindFirstCongruent(countries, c => Alpha3Matches(a, c), c => Alpha3Matches(b, c));
  }

  /** When record `i` is the first to match, `FindAlpha3` returns it. */
  lemma FindAlpha3First(countries: seq<Country>, i: int, code: string)
    requires 0 <= i < |countries| && countries[i].alpha3 == Upper(code)
    requires forall j :: 0 <= j < i ==> !(countries[j].alpha3 == Upper(code))
    ensures FindAlpha3(countries, code) == Some(countries[i])
  {
    FindFirstAt(countries, c => Alpha3Matches(code, c), i);
  }

  lemma FindAlpha3Finds(countries: seq<Country>, i: int, code: string)
    requires UniqueAlpha3(countries)
    requires 0 <= i < |countries| && Upper(code) == countries[i].alpha3
    ensures FindAlpha3(countries, code) == Some(countries[i])
  {
    FindFirstAt(countries, c => Alpha3Matches(code, c), i);
  }

  lemma FindAlpha3RoundTrip(countries: seq<Country>, r: Country)
    requires UniqueAlpha3(countries)
    requires r in countries && IsUpper(r.alpha3)
    ensures FindAlpha3(countries, r.alpha3) == Some(r)
  {
    var i :| 0 <= i < |countries| && countries[i] == r;
    IsUpperIffFixed(r.alpha3);
    FindAlpha3Finds(countries, i, r.alpha3);
  }

  // findNum3

  /** A number is looked up as its decimal text. */
  lemma FindNum3NumberAsText(countries: seq<Country>, n: nat)
    ensures FindNum3(countries, Num(n)) == FindNum3(countries, Str(NatToDecimal(n)))
  {
    FindFirstCongruent(countries, c => Num3Matches(Num(n), c), c => Num3Matches(Str(NatToDecimal(n)), c));
  }

  /** No padding: a number never finds a record stored with a zero-padded code such as "036". */
  lemma FindNum3NumberNeverPadded(countries: seq<Country>, n: nat)
    requires FindNum3(countries, Num(n)).Some?
    ensures !(|FindNum3(countries, Num(n)).value.num3| > 1 && FindNum3(countries, Num(n)).value.num3[0] == '0')
  {
  }

  /** When record `i` is the first to match, `FindNum3` returns it. */
  lemma FindNum3First(countries: seq<Country>, i: int, key: Key)
    requires 0 <= i < |countries| && countries[i].num3 == KeyText(key)
    requires forall j :: 0 <= j < i ==> !(countries[j].num3 == KeyText(key))
    ensures FindNum3(countries, key) == Some(countries[i])
  {
    FindFirstAt(countries, c => Num3Matches(key, c), i);
  }

  lemma FindNum3Finds(countries: seq<Country>, i: int, key: Key)
    requires UniqueNum3(countries)
    requires 0 <= i < |countries| && KeyText(key) == countries[i].num3
    ensures FindNum3(countries, key) == Some(countries[i])
  {
    FindFirstAt(countries, c => Num3Matches(key, c), i);
  }

  /** Round trip with the stored code given as a string: exact, padded or not. */
  lemma FindNum3RoundTrip(countries: seq<Country>, r: Country)
    requires UniqueNum3(countries)
    requires r in countries
    ensures FindNum3(countries, Str(r.num3)) == Some(r)
  {
    var i :| 0 <= i < |countries| && countries[i] == r;
    FindNum3Finds(countries, i, Str(r.num3));
  }

  /** Round trip with the stored code given as a number: holds exactly for unpadded codes. */
  lemma FindNum3NumberRoundTrip(countries: seq<Country>, r: Country)
    requires UniqueNum3(countries)
    requires r in countries && IsCanonical(r.num3)
    ensures FindNum3(countries, Num(DecimalToNat(r.num3))) == Some(r)
  {
    var i :| 0 <= i < |countries| && countries[i] == r;
    NatOfDecimal(r.num3);
    FindNum3Finds(countries, i, Num(DecimalToNat(r.num3)));
  }
}
