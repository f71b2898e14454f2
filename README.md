# iso3166-lookup, modelled in Dafny

The library answers lookups over a fixed, ordered table of ISO 3166-1 country
records. Each record holds a display name and three codes, all stored as text:
the alpha-2 code, the alpha-3 code and the numeric-3 code (section 6 of
ISO 3166-1). `src/index.ts` exports five operations:

- `getAllCountries`, which returns the table itself;
- `findCountry`, `findAlpha2`, `findAlpha3` and `findNum3`.

Each `find*` is one `Array.prototype.find` call: a first-match scan that
returns `undefined` on a miss. They differ in how they normalise the key:

- `findCountry` upper-cases both the stored name and the query.
- `findAlpha2` and `findAlpha3` upper-case only the query. The stored code is compared as it is.
- `findNum3` turns its string-or-number argument into text with `String(...)` and compares it exactly. It adds no zero padding.

The model is pure, as the source is. It is made of functions over `seq` and lemmas about them:

- `Wrappers.Option`: `None` stands for `undefined`.
- `Search.FindFirst`: `Array.prototype.find`.
- `Ascii.Upper`: `toUpperCase` on ASCII letters.
- `Decimal.NatToDecimal`: `String(n)` for a non-negative integer `n`. Its inverse, `Decimal.DecimalToNat`, is its partner.
- `Iso3166`: the record type, the five operations, and the lookup properties.
- `Iso3166Samples`: the records the repository's tests look up, gathered into a small table, with those lookups proved.

The country table is the parameter `countries` of every operation. Its data file
(`src/countries`) is not part of this model. `src/index.ts` never checks that the
table's keys are unique, so the `find*` functions give first-match semantics on
any table. Only the round-trip lemmas require unique keys, through the stated
predicates `UniqueNames`, `UniqueAlpha2`, `UniqueAlpha3` and `UniqueNum3`. The
alpha-2 and alpha-3 round trips also require the record's own code to be upper case
(`Ascii.IsUpper`).

## Model

| member | source | states |
|---|---|---|
| Search.FindFirst | src/index.ts:17-19 | `find` returns None exactly when no element satisfies the predicate. Otherwise it returns the element at the first index that satisfies it. |
| Search.FindFirstAt | src/index.ts:17-19 | When index `i` is the first match, `find` returns `s[i]`. The first match is therefore unique. |
| Search.FindFirstCongruent | src/index.ts:17-19 | Two predicates that agree on every element of the sequence make `find` return the same result. |
| Ascii.Upper | src/index.ts:18 | Upper-casing keeps the length and upper-cases each character in place. |
| Ascii.IsUpperIffFixed | src/index.ts:29 | A string has no lower-case letter exactly when upper-casing leaves it unchanged. |
| Ascii.UpperIsUpper | src/index.ts:29 | The result of upper-casing is upper case. Upper-casing is idempotent. |
| Decimal.NatToDecimal | src/index.ts:49 | `String(n)` is non-empty and all digits. It has no leading zero unless it is "0". |
| Decimal.DecimalOfNat | src/index.ts:49 | Parsing the decimal text of `n` gives back `n`. |
| Decimal.NatToDecimalInjective | src/index.ts:49 | Two numbers with the same decimal text are equal. |
| Decimal.NatOfDecimal | src/index.ts:49 | Canonical decimal text (no padding) is exactly the printed form of its own value. |
| Decimal.PaddedNeverPrinted | src/index.ts:49 | Zero-padded text such as "036" is never the decimal text of any number. |
| Iso3166.KeyText | src/index.ts:48-49 | `String(key)` keeps a string unchanged. It turns a number into canonical decimal text that parses back to the number. |
| Iso3166.GetAllCountries | src/index.ts:8 | `getAllCountries` returns the table: same length, and the same record at every index. |
| Iso3166.FindCountry | src/index.ts:16-20 | The result is None exactly when no stored name equals the query after both are upper-cased. Otherwise it is the first record whose name matches that way. |
| Iso3166.FindAlpha2 | src/index.ts:28-30 | The result is None exactly when no stored alpha-2 equals the upper-cased query. Otherwise it is the first record whose alpha-2 equals it. |
| Iso3166.FindAlpha3 | src/index.ts:38-40 | The result is None exactly when no stored alpha-3 equals the upper-cased query. Otherwise it is the first record whose alpha-3 equals it. |
| Iso3166.FindNum3 | src/index.ts:48-50 | The result is None exactly when no stored numeric code equals `String(key)`. Otherwise it is the first record whose code equals it exactly. |
| Iso3166.FindCountryCaseInsensitive | src/index.ts:16-20 | Two names with the same upper-case form find the same result. |
| Iso3166.FindCountryUpperQuery | src/index.ts:16-20 | Upper-casing the query before the lookup changes nothing. |
| Iso3166.FindCountryLengthMismatch | src/index.ts:18 | A name whose length differs from every stored name (under ASCII upper-casing) finds nothing. |
| Iso3166.FindCountryFirst | src/index.ts:17-19 | The first record whose name matches is the one returned. |
| Iso3166.FindCountryFinds | src/index.ts:16-20 | If names are distinct under upper-casing, any casing of a stored name finds that record. |
| Iso3166.FindCountryRoundTrip | src/index.ts:16-20 | If names are distinct under upper-casing, `findCountry(r.country)` returns `r` for every record `r` in the table. |
| Iso3166.FindAlpha2Hit | src/index.ts:28-30 | A hit's alpha-2 is the upper-cased query, which is already upper case. A record stored with a lower-case code is never returned. |
| Iso3166.FindAlpha2CaseInsensitive | src/index.ts:28-30 | Two codes with the same upper-case form find the same result. |
| Iso3166.FindAlpha2LengthMismatch | src/index.ts:29 | A query whose length differs from every stored alpha-2 code (such as "xxx") finds nothing, under ASCII upper-casing. |
| Iso3166.FindAlpha2First | src/index.ts:29 | The first record whose alpha-2 equals the upper-cased query is the one returned. |
| Iso3166.FindAlpha2Finds | src/index.ts:28-30 | If alpha-2 codes are distinct, a query that upper-cases to a stored code finds that record. |
| Iso3166.FindAlpha2RoundTrip | src/index.ts:28-30 | If alpha-2 codes are distinct, `findAlpha2(r.alpha2)` returns `r` for every record `r` whose alpha-2 is upper case. |
| Iso3166.FindAlpha3Hit | src/index.ts:38-40 | A hit's alpha-3 is the upper-cased query, which is already upper case. |
| Iso3166.FindAlpha3CaseInsensitive | src/index.ts:38-40 | Two codes with the same upper-case form find the same result. |
| Iso3166.FindAlpha3First | src/index.ts:39 | The first record whose alpha-3 equals the upper-cased query is the one returned. |
| Iso3166.FindAlpha3Finds | src/index.ts:38-40 | If alpha-3 codes are distinct, a query that upper-cases to a stored code finds that record. |
| Iso3166.FindAlpha3RoundTrip | src/index.ts:38-40 | If alpha-3 codes are distinct, `findAlpha3(r.alpha3)` returns `r` for every record `r` whose alpha-3 is upper case. |
| Iso3166.FindNum3NumberAsText | src/index.ts:49 | Looking up the number `n` gives the same result as looking up its decimal text. |
| Iso3166.FindNum3NumberNeverPadded | src/index.ts:49 | A numeric query never returns a record whose code is zero-padded. |
| Iso3166.FindNum3First | src/index.ts:49 | The first record whose code equals `String(key)` is the one returned. |
| Iso3166.FindNum3Finds | src/index.ts:48-50 | If numeric codes are distinct, a key whose text is a stored code finds that record. |
| Iso3166.FindNum3RoundTrip | src/index.ts:48-50 | If numeric codes are distinct, looking up `r.num3` as a string returns `r`, padded or not. |
| Iso3166.FindNum3NumberRoundTrip | src/index.ts:48-50 | If numeric codes are distinct, a record with an unpadded code is found by that code's numeric value. |
| Iso3166Samples.SampleGetAll | test/test.ts:8-10 | `getAllCountries` returns the table itself. |
| Iso3166Samples.SampleMissName | test/test.ts:14-18 | "Unknown" finds no country. |
| Iso3166Samples.SampleMissAlpha2 | test/test.ts:20-30 | "xx" and "xxx" find no alpha-2 code. The test at these lines is titled for alpha-3, but it calls `findAlpha2`. |
| Iso3166Samples.SampleMissAlpha3 | test/test.ts:26-30 | "xxx" finds no alpha-3 code either, which is what that test's title describes. |
| Iso3166Samples.SampleMissNum3 | test/test.ts:32-36 | "999" finds no numeric code. |
| Iso3166Samples.SampleByNameUpper | test/test.ts:40-47 | "INDIA" finds India. |
| Iso3166Samples.SampleByNameLower | test/test.ts:49-56 | "norway" finds Norway. |
| Iso3166Samples.SampleByAlpha2 | test/test.ts:60-79 | "ax" finds the Åland Islands and "BA" finds Bosnia and Herzegovina. |
| Iso3166Samples.SampleByAlpha3 | test/test.ts:83-99 | "asm" finds American Samoa and "ATG" finds Antigua and Barbuda. |
| Iso3166Samples.SampleByNum3 | test/test.ts:103-119 | The number 616 finds Poland and the string "036" finds Australia. The number 36 finds nothing, because no padding is added. |

## Left out

- The table's contents (`src/countries`): the table is a parameter, and the samples hold only the records the tests name.
- Upper: models ASCII upper-casing only. JavaScript's Unicode `toUpperCase` can change a string's length (for example "ß" becomes "SS"). Non-ASCII letters are left unchanged here.
- KeyText: covers non-negative integers only. `String` of a negative, fractional, NaN or infinite number is floating-point formatting and is not modelled.
- KeyText: matches JavaScript only up to `Number.MAX_SAFE_INTEGER` (2^53 - 1). `Num(n)` is an unbounded `nat`, but a JavaScript number is a double. Above 2^53, `String(n)` prints the shortest digits that read back as the same double: `String(2**60)` is "1152921504606847000", while `NatToDecimal` gives the exact "1152921504606846976". From 1e21 up, `String(n)` uses exponent form, such as "1e+21". The no-padding lemmas are not affected, since neither form starts with '0'.
- NatToDecimal: prints the exact decimal digits of any `nat`. This is `String(n)` only for integers up to 2^53 - 1, for the same reason.
- `src/index.ts` has no output-type selector parameter, no `InvalidArgument` error and no `getAllCountryNames`, `getAllAlpha2` or `getAllAlpha3` accessor. None of these are modelled.
- The sample Åland Islands record (`Iso3166Samples.Aland`) stores the name "Åland Islands". The test at test/test.ts:63 asserts a mis-encoded form of that name. Only the alpha-2 lookup uses this record, so the change does not affect it.
- The default export object (src/index.ts:52-58) only groups the five functions. The module `Iso3166` plays that role.
- Object identity: `getAllCountries` returning the same array object is modelled as returning the same sequence value.
- Purity and idempotence: every operation is a Dafny function of the table and the query, so repeated calls are equal and the table cannot change. No separate lemma restates this.
- The test harness (mocha, chai, the build output under `dist/`) is not part of this model.
