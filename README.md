# midstac core, modelled in Dafny

midstac answers natural-language questions about Earth-observation data. This project models its core:

- **The spatiotemporal extractor** (`midstac/extractor.py`). It turns a free-text query into a parameter dictionary. The dictionary holds the query and, when one is found:
  - a place name;
  - a (lat, lon) pair;
  - a four-number bounding box;
  - a temporal range.
- **The query dispatcher** (`midstac/dispatcher.py`). It:
  - normalises NASA CMR records and STAC collections into `DatasetSummary` records;
  - builds the keyword arguments of the two catalog searches;
  - fans a query out over its keywords and the selected catalogs.
- **The record shapes** (`midstac/models.py`).

Modules:

- `Wrappers`: `Option` and `Result`.
- `Text`: the Python `str` operations the code relies on:
  - `strip`, `split()`, `join`, `lower`;
  - `sub in s`, `s[:n]`.
- `Models`: `Link`, `DatasetSummary`, the value type of the parameter dictionary, and the test that a dictionary fits the pydantic model `SpatiotemporalParameters`.
- `PyJson`: the decoded JSON of a NASA record, with Python's truthiness, `in`, indexing, iteration and `str()` on it. Each of these fails the way Python does on a value of the wrong type.
- `UrlParse`: the part of CPython's `urlsplit` that decides the scheme and the network location.
- `Extractor`: the five `extract_*` methods. Each "first pattern that yields wins" loop is one generic `Cascade`.
  - The regular-expression engine is an oracle. So are `float()`, dateutil's fuzzy parser, `strftime` and the geocoding service.
  - "Now" is a parameter.
  - `ExtractParameters` builds the dictionary key by key, as the source does.
- `Dispatcher`:
  - the two formatters;
  - the two catalog searches, as methods that fill the parameter map step by step and loop over the records found;
  - the dispatch, whose two keyword loops `extend` their result lists.

  `earthaccess.search_datasets` and `Client.open(url).collection_search(...).collection_list()` are oracles that return the records found, or None when they raise.

Each method is proved equal to a specification function. The properties are proved as lemmas about those functions.

Three places where the dispatcher does something its callers might not expect are modelled as written:

- The `bbox` argument of `dispatch_collection_query` is overwritten by `params["bbox"]` before any use. The "corrected bbox" comparison never fires.
- `limit` is accepted by `search_stac_collections` but never passed on.
- A temporal range without a start date is not sent to either catalog. This is what a "before D" query produces.

## Model

| member | source | states |
|---|---|---|
| Text.Strip | midstac/extractor.py:176-177 | `strip()` leaves no whitespace at either end and never lengthens the text |
| Text.StripIsSlice | midstac/extractor.py:176-177 | what `strip()` keeps is the contiguous piece of the capture that starts where its leading whitespace ends |
| Text.StripDropsSpace | midstac/extractor.py:176-177 | only whitespace is dropped before and after that piece |
| Text.SplitGivesWords | midstac/dispatcher.py:258-259 | every item of `split()` is non-empty and holds no whitespace |
| Text.SplitJoin | midstac/dispatcher.py:258-259 | `split()` undoes a single-space join of such words, so a query's words come back in order |
| Text.Truncate | midstac/dispatcher.py:62 | `s[:500]` is a prefix of `s` of at most 500 characters: all of `s` when it is short enough, exactly 500 characters otherwise |
| PyJson.Lookup | midstac/dispatcher.py:53 | a dict lookup finds a value exactly when the key is present, and the value found is stored under that key |
| PyJson.GetItem | midstac/dispatcher.py:49 | `v[key]` succeeds exactly on a dict that holds the key |
| UrlParse.UrlSplitParts | midstac/dispatcher.py:38 | read off the URL with leading controls, tabs and line breaks removed: a reported scheme is the lower-cased text before the first ':'. A reported netloc follows a "//" that opens the rest and runs to the end or the first '/', '?' or '#'. It holds none of those three, and holds '[' exactly when it holds ']'. The ValueError comes only from a URL that holds a bracket |
| UrlParse.HttpUrlIsValid | midstac/dispatcher.py:36-41 | every URL of the form http(s)://host[/?#...], with the scheme in any letter case and a non-empty host, is valid |
| UrlParse.ValidUrlShape | midstac/dispatcher.py:36-41 | conversely, a valid URL is, once cleaned, "http" or "https" in any letter case, then "://", then a non-empty netloc |
| Extractor.CascadeVerdict | midstac/extractor.py:171-218 | a first-match loop gives None exactly when every pattern moves on. Otherwise the first pattern that does not move on gives the result, and the loop fails only when that pattern raises |
| Extractor.ExtractLocation | midstac/extractor.py:78-82 | None exactly when no location pattern matches. Otherwise group 1 of the first pattern in table order that matches, wherever later patterns match |
| Extractor.ExtractCoordinates | midstac/extractor.py:116-127 | a returned pair has -90 ≤ lat ≤ 90 and -180 ≤ lon ≤ 180. It is the pair of the first pattern that yields one, in table order. None exactly when every pattern fails to match, fails to parse or is out of range |
| Extractor.ExtractBbox | midstac/extractor.py:139-147 | a returned box has four numbers and is the box of the first pattern that yields one, "bbox" before "bounds". None exactly when no pattern matches and parses |
| Extractor.BboxFirstMatch | midstac/extractor.py:139-147 | when the first matching pattern's groups 1 to 4 all parse, the box is those four numbers in order |
| Extractor.RelativeOffset | midstac/extractor.py:162-163 | the offset of the first table keyword found in the lower-cased query, and None exactly when none is found |
| Extractor.KeywordPrecedence | midstac/extractor.py:159-168 | the first keyword found decides the range (now + offset to now), whatever the date-range patterns would match |
| Extractor.NoKeywordFallsThrough | midstac/extractor.py:171-218 | with no keyword the date-range loop decides, and when no pattern matches the result is None |
| Extractor.DateRangeTemporal | midstac/extractor.py:171-218 | with no pattern matching the loop gives None; every range it gives has an end date; only the date parser's OverflowError escapes |
| Extractor.ExtractTemporal | midstac/extractor.py:149-218 | every range returned has an end date, and the only exception that escapes is the parser's overflow |
| Extractor.BranchTable | midstac/extractor.py:175-214 | the branch each table pattern takes under the substring tests on its text. "during" also contains "in", so a "during" capture that passes the year test takes the year branch |
| Extractor.DateRangeStepsEndDated | midstac/extractor.py:171-216 | every pattern of the table that yields a range sets its end date. A table pattern never asks for a missing group, so only OverflowError escapes |
| Extractor.FromToYears | midstac/extractor.py:175-184 | "from Y1 to Y2" with two four-digit years, once stripped, gives Y1-01-01 to Y2-12-31 |
| Extractor.FromToDates | midstac/extractor.py:186-191 | "from D1 to D2" otherwise gives the two parsed days, formatted |
| Extractor.BetweenYears | midstac/extractor.py:175-184 | "between Y1 and Y2" behaves as "from Y1 to Y2" when no "from" range matched |
| Extractor.SinceEndsToday | midstac/extractor.py:192-197 | "since D" runs from the parsed day to now |
| Extractor.AfterEndsToday | midstac/extractor.py:192-197 | "after D" runs from the parsed day to now |
| Extractor.BeforeSetsOnlyEnd | midstac/extractor.py:198-202 | "before D" gives a range with the end date only |
| Extractor.InYearSpansYear | midstac/extractor.py:203-208 | "in YYYY" spans YYYY-01-01 to YYYY-12-31 |
| Extractor.DuringYearCapture | midstac/extractor.py:203-208 | "during X" where X passes the year test is handled by the year branch and spans X-01-01 to X-12-31 |
| Extractor.DuringSingleDay | midstac/extractor.py:209-214 | "during D" otherwise starts and ends on the parsed day |
| Extractor.YearSpanIso | midstac/extractor.py:180-184 | two four-digit years give two well-formed YYYY-MM-DD dates |
| Extractor.DuringMonthTakesYearBranch | midstac/extractor.py:203-208 | as written, "data during June" gives "June-01-01" to "June-12-31", and that start is not a date |
| Extractor.CorrectedDatesAreIso | midstac/extractor.py:149-218 | with the year test corrected to four digits, every date extracted is YYYY-MM-DD, given that `strftime` produces such dates |
| Extractor.DuringMonthCorrected | midstac/extractor.py:209-214 | with the corrected year test, "data during June" reaches the `during` branch and gives the parsed day |
| Extractor.Assemble | midstac/extractor.py:235-257 | "query" always holds the query. Each other key is present exactly when its sub-extractor's value is truthy, and then holds that value |
| Extractor.Parameters | midstac/models.py:17-24 | the dictionary holds only the field names of `SpatiotemporalParameters`, "query" equal to the input, and each value of its field's kind (a str, a pair, a list of numbers or None for "bbox", a range) |
| Extractor.Combine | midstac/extractor.py:235-263 | the same holds for any results of the sub-extractors; a temporal error escapes |
| Extractor.ExtractParameters | midstac/extractor.py:220-263 | the key-by-key construction equals `Parameters` on every input, including both exceptions |
| Extractor.ParametersKeys | midstac/extractor.py:235-263 | the geocoder step changes "bbox" only, and adds it exactly when it runs. Every other key is as assembled |
| Extractor.GeocodedBbox | midstac/extractor.py:259-260 | an extracted box is kept. When a place was found without a box or a pair, the geocoder's box (or None) is stored and its failure escapes. A temporal error escapes first |
| Extractor.GeocoderOnlyWhenNeeded | midstac/extractor.py:259-260 | when a box or a pair was found, or no place name was, the geocoder's answer does not matter |
| Dispatcher.LinkOf | midstac/dispatcher.py:48-49 | a dict entry without both keys gives no link, and with both it gives a link exactly when both values are str. A str that contains both key names passes the tests and then raises |
| Dispatcher.FormatNasaDataset | midstac/dispatcher.py:44-68 | the loop over RelatedUrls followed by the field mapping equals `FormatNasa` |
| Dispatcher.NasaLinksFailFrom | midstac/dispatcher.py:46-49 | once an entry raises, the links loop stays failed |
| Dispatcher.NasaLinksOfDicts | midstac/dispatcher.py:46-49 | on well-formed dict entries the loop succeeds and keeps exactly the entries with both keys, in order |
| Dispatcher.DoiCases | midstac/dispatcher.py:52-55 | the DOI is "Unavailable" when the record has no DOI field or its DOI dict has no "DOI" key, and otherwise the DOI str |
| Dispatcher.NasaSummaryFields | midstac/dispatcher.py:57-64 | a NASA summary has source "NASA CMR", the meta "concept-id" as id, the EntryTitle as title ("" when it is falsy), and the record's DOI. Its summary is the first 500 characters of the abstract, all of it when shorter. Its links are those of the loop |
| Dispatcher.BadEntryFailsRecord | midstac/dispatcher.py:66-68 | one entry that raises fails the whole record |
| Dispatcher.StacSummaryFields | midstac/dispatcher.py:71-83 | a STAC summary exists exactly when the collection has a title. It has source "STAC", the id and title, no DOI, the first 500 characters of the description (all of it when shorter), and the links with a valid target |
| Dispatcher.KeptLinksMembers | midstac/dispatcher.py:82 | a link is kept exactly when some input link whose target passes the test gives it |
| Dispatcher.KeptLinksAppend | midstac/dispatcher.py:82 | filtering keeps the input order: filtering a concatenation concatenates the filtered parts |
| Dispatcher.MaapIsDefault | midstac/dispatcher.py:90-95 | the default catalog is the "maap" entry of `STAC_CATALOGS` |
| Dispatcher.AllFormatted | midstac/dispatcher.py:160-166 | a formatting loop succeeds exactly when every record formats, and then gives one summary per record, in order |
| Dispatcher.FormatAllFailFrom | midstac/dispatcher.py:162-166 | once a record fails to format, the loop stays failed |
| Dispatcher.NasaParamsContents | midstac/dispatcher.py:141-156 | the NASA parameters hold `keyword` ("*" when missing or empty), `bounding_box` only for a non-empty box, and `temporal` only when given. The extra arguments override these, and `count` overrides everything |
| Dispatcher.SearchEarthaccess | midstac/dispatcher.py:116-169 | the step-by-step parameter dict and the records loop equal `NasaSearch` of `NasaParams`. Any exception gives [] |
| Dispatcher.NasaSearchResult | midstac/dispatcher.py:160-169 | one record that fails to format empties the whole result; otherwise the result has one summary per record, in order |
| Dispatcher.NasaSearchSources | midstac/dispatcher.py:160-166 | every summary of a NASA call has source "NASA CMR" |
| Dispatcher.StacParamsContents | midstac/dispatcher.py:200-213 | the STAC parameters hold `q` only when there are keywords, `bbox` only for a non-empty box, `datetime` only when not empty, and the extra arguments over these. `limit` appears only when the extra arguments carry it |
| Dispatcher.SearchStac | midstac/dispatcher.py:171-228 | the method equals `StacSearch` on the given catalog, or on the MAAP catalog when none is given, with `StacParams`. `limit` is unused |
| Dispatcher.FormatStacResults | midstac/dispatcher.py:218-225 | the collections loop equals `StacResults`: [] when one collection fails to format |
| Dispatcher.StacSearchResult | midstac/dispatcher.py:216-228 | a STAC call gives [] as soon as one collection has no title, and otherwise one summary per collection, in order |
| Dispatcher.StacSearchSources | midstac/dispatcher.py:221-225 | every summary of a STAC call has source "STAC" |
| Dispatcher.SingleKeywordQuery | midstac/dispatcher.py:204-205 | a one-keyword list is sent as `q` unchanged |
| Dispatcher.KeywordTextQuery | midstac/dispatcher.py:204 | a str of words is split and the words joined with " or " |
| Dispatcher.DispatchCollectionQuery | midstac/dispatcher.py:230-301 | the method equals `Dispatch`: the NASA fan-out, then the STAC fan-out |
| Dispatcher.SearchNasaKeywords | midstac/dispatcher.py:274-283 | for "nasa" and "all", one NASA call per keyword, results concatenated in keyword order; otherwise [] |
| Dispatcher.SearchStacKeywords | midstac/dispatcher.py:285-299 | for "maap", "all", "stac" and "esa", one MAAP call per keyword, results concatenated in keyword order; otherwise [] |
| Dispatcher.FanOutAppend | midstac/dispatcher.py:276-281 | searching a concatenation of keyword lists gives the concatenated results |
| Dispatcher.FailedKeyword | midstac/dispatcher.py:276-281 | a keyword whose call returns nothing adds nothing, and the other keywords' results are kept |
| Dispatcher.FailedCalls | midstac/dispatcher.py:167-169 | a keyword whose NASA call raises gives []; so does one whose STAC call raises |
| Dispatcher.DispatchOrder | midstac/dispatcher.py:274-301 | every result comes from "NASA CMR" or "STAC", with all NASA results before all STAC results. "nasa" gives only NASA results, "maap"/"stac"/"esa" only STAC results, and an unknown source [] |
| Dispatcher.NasaThenStac | midstac/dispatcher.py:301 | in `results_earthaccess + results_stac`, no NASA summary follows a STAC one |
| Dispatcher.NoBboxSent | midstac/dispatcher.py:248-254 | without a box in the parameters no call sends one, whatever box the caller passed |
| Dispatcher.KeywordReachesBackends | midstac/dispatcher.py:274-299 | each keyword reaches NASA as `keyword` with `count` = max_results, and reaches STAC as `q` |
| Dispatcher.QueryWordsFallback | midstac/dispatcher.py:258-259 | with no keywords given, the words of the query are searched one by one |
| Dispatcher.TemporalArgsCases | midstac/dispatcher.py:264-269 | the range reaches NASA as (start, end) and STAC as "start/end". A missing end repeats the start, and an empty end leaves the start alone. A range without a start reaches neither |

## Left out

- The regular-expression engine, `float()`, dateutil's fuzzy parser and `strftime` are oracles.
  - The matcher is assumed only to give as many groups as the pattern declares.
  - Only the year test `^\d{4}$` is written out, on ASCII digits.
- `datetime.now()` is one parameter. The source reads the clock twice in a keyword or "since" branch, and the model does not capture a change of day between the reads.
- The geocoding HTTP call (`extract_geolocation_bbox`, midstac/extractor.py:84-104) is an oracle. It yields the first feature's box, or None, or an exception; the URL, the API key and the JSON decoding are not modelled.
- The constructor's environment read (midstac/extractor.py:62-66) and all logging are left out.
- `str.isspace`, `str.lower` and `\d` are modelled on ASCII plus the Unicode spaces; other Unicode letters and digits are not.
- UrlParse.UrlSplitParts: the NFKC netloc check and the check of bracketed IPv6 content are not modelled. The scheme and netloc rules follow CPython 3.12's `urlsplit`.
- `PyJson.Str`: `repr` is modelled without escaping of quotes or control characters. Dict keys are modelled as str only, and list and tuple are not distinguished.
- earthaccess's record accessors are modelled on its UMM JSON as assumptions, because earthaccess is not part of this model:
  - `get_umm` gives "" for a missing field;
  - `abstract()` is the "Abstract" field;
  - `concept_id()` is the meta "concept-id".
- Earthdata authentication (`authenticate_earthaccess` and the re-login at midstac/dispatcher.py:138-139) is left out: it is a network call.
- `search.matched()` (midstac/dispatcher.py:219) is left out: it is only logged. An exception it raises is treated like one from the search.
- The `try`/`except` around each keyword loop in `dispatch_collection_query` is not modelled: both searches already catch every exception.
- Dispatcher.DispatchCollectionQuery: requires the parameters to have the types the extractor gives them. A non-str query or temporal value would raise outside any `try`.
- midstac/server.py and midstac/virtual_dataset.py are not part of this model. They are tool registration, file and network I/O, and raster plotting.
- Extractor.Parameters: the length of a geocoded box is not constrained, though the pydantic model wants four numbers. The geocoder is an oracle, and an extracted box always has four (`ExtractBbox`).
- `ExtractTemporal` and `ExtractParameters` take the year test as a parameter. `LengthFour` is the source as written and `FourDigits` the corrected test (see Findings).

## Findings

| source | as written | input that shows it | evidently intended | confidence | as-written member | corrected member |
|---|---|---|---|---|---|---|
| midstac/extractor.py:203-208 | the year branch is chosen by `"in" in pattern and len(match.group(1)) == 4`. The text of the `during` pattern contains "in", so any four-character capture after "during" is treated as a year | "data during June" gives start "June-01-01" and end "June-12-31" | only a four-digit capture is a year, and "during June" is handled by the `during` branch, giving the parsed day | not executed | Extractor.DuringMonthTakesYearBranch | Extractor.CorrectedDatesAreIso |
