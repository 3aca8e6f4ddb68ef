/** The spatiotemporal extractor (midstac/extractor.py): turns a free-text query into a
    dictionary with the query itself and, when found, a place name, a coordinate pair, a
    bounding box and a temporal range.

    Each category is a cascade: its patterns are tried in table order and the first one
    that yields a value wins. The regular-expression engine, `float()`, dateutil's fuzzy
    date parser, `strftime` and the geocoding web service are oracles gathered in
    `Oracles`; "now" is a parameter. */
module Extractor {
  import opened Wrappers
  import opened Text
  import opened Models

  type Positive = n: nat | 1 <= n witness 1

  /** A regular expression of the source: its text and how many capture groups it has. */
  datatype Pattern = Pattern(text: string, groups: Positive)

  /** `re.search(pattern.text, text, flags)`: the capture groups of the leftmost match,
      group 1 first, or None when nothing matches; the flag says whether re.IGNORECASE
      is passed. All that is assumed of the engine is that a match has exactly as many
      groups as the pattern declares. */
  type Matcher = f: (Pattern, string, bool) -> Option<seq<string>>
    | forall p, t, ic :: f(p, t, ic).Some? ==> |f(p, t, ic).value| == p.groups
    witness (p: Pattern, t: string, ic: bool) => None

  /** A calendar day, counted from any fixed origin. */
  type Day = int

  /** dateutil's `parse(s, fuzzy=True)`: a day, a ValueError (caught by the extractor),
      or an OverflowError (not caught). */
  datatype DateParse = Parsed(day: Day) | Unparsable | Overflow

  /** The geocoding call: the `bbox` of the first feature (None when the feature has
      none or is empty), or an exception (an HTTP error, or an IndexError on an empty
      feature list). */
  datatype Geocoded = Geocoded(bbox: Option<seq<real>>) | GeocodingRaised

  datatype Oracles = Oracles(
    search: Matcher,
    parseFloat: string -> Option<real>,   // float(s); None is a ValueError
    parseDate: string -> DateParse,
    format: Day -> string)                // d.strftime("%Y-%m-%d")

  /** `extract_geolocation_bbox`: the geocoding web service. */
  type Geocoder = string -> Geocoded

  /** The exceptions that escape the extractor. */
  datatype ExtractionError = DateOverflow | MissingGroup | GeocodingFailed

  // ---------------------------------------------------------------------------------
  // Pattern tables, in the source's order

  const LOCATION_PATTERNS: seq<Pattern> := [
    Pattern(@"in\s+([A-Z][a-z]+(?:\s+[A-Z][a-z]+)*)", 1),
    Pattern(@"over\s+([A-Z][a-z]+(?:\s+[A-Z][a-z]+)*)", 1),
    Pattern(@"at\s+([A-Z][a-z]+(?:\s+[A-Z][a-z]+)*)", 1),
    Pattern(@"near\s+([A-Z][a-z]+(?:\s+[A-Z][a-z]+)*)", 1)
  ]

  const COORDINATE_PATTERNS: seq<Pattern> := [
    Pattern(@"(-?\d+(?:\.\d+)?)\s*,\s*(-?\d+(?:\.\d+)?)", 2),
    Pattern(@"lat[itude]*[:=\s]+(-?\d+(?:\.\d+)?)[,\s]+lon[gitude]*[:=\s]+(-?\d+(?:\.\d+)?)", 2),
    Pattern(@"(-?\d+(?:\.\d+)?)\s*[NS]\s*,?\s*(-?\d+(?:\.\d+)?)\s*[EW]", 2)
  ]

  const BBOX_PATTERNS: seq<Pattern> := [
    Pattern(@"bbox\s*(?:[:=]\s*)?\[?\s*(-?\d+(?:\.\d+)?)\s*,\s*(-?\d+(?:\.\d+)?)\s*,\s*(-?\d+(?:\.\d+)?)\s*,\s*(-?\d+(?:\.\d+)?)\s*\]?", 4),
    Pattern(@"bounds?\s*(?:[:=]\s*)?\[?\s*(-?\d+(?:\.\d+)?)\s*,\s*(-?\d+(?:\.\d+)?)\s*,\s*(-?\d+(?:\.\d+)?)\s*,\s*(-?\d+(?:\.\d+)?)\s*\]?", 4)
  ]

  /** The relative keywords and their day offsets, in the dictionary's order. */
  const TEMPORAL_KEYWORDS: seq<(string, int)> := [
    ("today", 0), ("yesterday", -1), ("last week", -7), ("last month", -30), ("last year", -365)
  ]

  // The two long texts are written as keyword + rest; the pattern text is their concatenation.
  const FROM_TO := Pattern("from" + @"\s+([\w\s,\-:]+?)\s+to\s+([\w\s,\-:]+)", 2)
  const BETWEEN_AND := Pattern("between" + @"\s+([\w\s,\-:]+?)\s+and\s+([\w\s,\-:]+)", 2)
  const SINCE := Pattern(@"since\s+([\w\s,\-:]+)", 1)
  const AFTER := Pattern(@"after\s+([\w\s,\-:]+)", 1)
  const BEFORE := Pattern(@"before\s+([\w\s,\-:]+)", 1)
  const IN_YEAR := Pattern(@"in\s+(\d{4})", 1)
  const DURING := Pattern(@"during\s+([\w\s,\-:]+)", 1)

  const DATE_RANGE_PATTERNS: seq<Pattern> := [FROM_TO, BETWEEN_AND, SINCE, AFTER, BEFORE, IN_YEAR, DURING]

  // ---------------------------------------------------------------------------------
  // The cascade: try each item in order; the first one that does not skip decides

  /** What trying one pattern gives: a value (return it), nothing (go on to the next
      pattern; also what a caught exception does), or an exception that escapes. */
  datatype Step<+T> = Found(value: T) | Skip | Raise(error: ExtractionError)

  ghost predicate AllSkip<P, T>(items: seq<P>, attempt: P -> Step<T>, n: nat)
    requires n <= |items|
  {
    forall j :: 0 <= j < n ==> attempt(items[j]).Skip?
  }

  /** Item `i` is the first one that does not skip. */
  ghost predicate DecidesAt<P, T>(items: seq<P>, attempt: P -> Step<T>, i: int) {
    0 <= i < |items| && !attempt(items[i]).Skip? && AllSkip(items, attempt, i)
  }

  function Verdict<T>(s: Step<T>): Result<Option<T>, ExtractionError> {
    match s
    case Found(v) => Ok(Some(v))
    case Skip => Ok(None)
    case Raise(e) => Err(e)
  }

  /** `for item in items: ...` with an early return: the verdict of the first item that
      does not skip, and None when every item skips. */
  function Cascade<P, T>(items: seq<P>, attempt: P -> Step<T>): Result<Option<T>, ExtractionError> {
    if items == [] then Ok(None)
    else if attempt(items[0]).Skip? then Cascade(items[1..], attempt)
    else Verdict(attempt(items[0]))
  }

  /** The cascade is None exactly when every item skips; otherwise the first item that
      does not skip gives the verdict, and only an item that raises makes it an error. */
  lemma {:induction false} CascadeVerdict<P, T>(items: seq<P>, attempt: P -> Step<T>)
    ensures Cascade(items, attempt) == Ok(None) <==> AllSkip(items, attempt, |items|)
    ensures forall i :: DecidesAt(items, attempt, i) ==> Cascade(items, attempt) == Verdict(attempt(items[i]))
    ensures Cascade(items, attempt) != Ok(None) ==> exists i :: DecidesAt(items, attempt, i)
    ensures (forall i :: 0 <= i < |items| ==> !attempt(items[i]).Raise?) ==> Cascade(items, attempt).Ok?
  {
    if items != [] {
      if attempt(items[0]).Skip? {
        CascadeVerdict(items[1..], attempt);
        assert forall i :: 1 <= i <= |items| ==> (AllSkip(items, attempt, i) <==> AllSkip(items[1..], attempt, i - 1)) by {
          forall i | 1 <= i <= |items| ensures AllSkip(items, attempt, i) <==> AllSkip(items[1..], attempt, i - 1) {
            assert forall j :: 1 <= j < i ==> items[j] == items[1..][j - 1];
            if AllSkip(items[1..], attempt, i - 1) {
              forall j | 0 <= j < i ensures attempt(items[j]).Skip? {
                if j > 0 { assert items[j] == items[1..][j - 1]; }
              }
            }
          }
        }
        assert forall i :: DecidesAt(items, attempt, i) ==> i >= 1 && DecidesAt(items[1..], attempt, i - 1);
        assert forall i :: DecidesAt(items[1..], attempt, i) ==> DecidesAt(items, attempt, i + 1);
        assert forall i :: 1 <= i < |items| ==> items[i] == items[1..][i - 1];
      } else {
        assert DecidesAt(items, attempt, 0);
      }
    }
  }

  // ---------------------------------------------------------------------------------
  // Location, coordinates, bounding box

  function LocationStep(o: Oracles, query: string, p: Pattern): Step<string> {
    match o.search(p, query, false)
    case None => Skip
    case Some(groups) => Found(groups[0])
  }

  /** `extract_location`: group 1 of the first location pattern that matches (case
      sensitive), or None. */
  function ExtractLocation(o: Oracles, query: string): (r: Option<string>)
    ensures r == None <==> forall i :: 0 <= i < |LOCATION_PATTERNS| ==> o.search(LOCATION_PATTERNS[i], query, false).None?
    ensures forall i :: FirstMatch(o, LOCATION_PATTERNS, query, false, i) ==>
      r == Some(o.search(LOCATION_PATTERNS[i], query, false).value[0])
  {
    var attempt := p => LocationStep(o, query, p);
    var c := Cascade(LOCATION_PATTERNS, attempt);
    CascadeVerdict(LOCATION_PATTERNS, attempt);
    assert forall i :: 0 <= i < |LOCATION_PATTERNS| ==> (attempt(LOCATION_PATTERNS[i]).Skip? <==> o.search(LOCATION_PATTERNS[i], query, false).None?);
    assert forall i :: FirstMatch(o, LOCATION_PATTERNS, query, false, i) ==> DecidesAt(LOCATION_PATTERNS, attempt, i);
    c.value
  }

  /** Pattern `i` is the first of `patterns` that matches `query`. */
  ghost predicate FirstMatch(o: Oracles, patterns: seq<Pattern>, query: string, ignoreCase: bool, i: int) {
    && 0 <= i < |patterns|
    && o.search(patterns[i], query, ignoreCase).Some?
    && forall j :: 0 <= j < i ==> o.search(patterns[j], query, ignoreCase).None?
  }

  predicate InRange(c: Coordinates) {
    -90.0 <= c.lat <= 90.0 && -180.0 <= c.lon <= 180.0
  }

  /** One coordinate pattern: both groups parsed and in range, else on to the next
      pattern (a ValueError or IndexError is caught). */
  function CoordinateStep(o: Oracles, query: string, p: Pattern): Step<Coordinates> {
    match o.search(p, query, true)
    case None => Skip
    case Some(groups) =>
      if |groups| < 2 then Skip
      else
        match (o.parseFloat(groups[0]), o.parseFloat(groups[1]))
        case (Some(lat), Some(lon)) =>
          if InRange(Coordinates(lat, lon)) then Found(Coordinates(lat, lon)) else Skip
        case _ => Skip
  }

  /** `extract_coordinates`: the pair of the first pattern whose match parses to an
      in-range pair; a match out of range or unparsable moves on to the next pattern. */
  function ExtractCoordinates(o: Oracles, query: string): (r: Option<Coordinates>)
    ensures r.Some? ==> InRange(r.value)
    ensures r.Some? ==> exists i :: 0 <= i < |COORDINATE_PATTERNS| && CoordinateStep(o, query, COORDINATE_PATTERNS[i]) == Found(r.value)
    ensures r == None <==> forall i :: 0 <= i < |COORDINATE_PATTERNS| ==> CoordinateStep(o, query, COORDINATE_PATTERNS[i]) == Skip
    ensures forall i :: FirstCoordinates(o, query, i) ==>
      r == Some(CoordinateStep(o, query, COORDINATE_PATTERNS[i]).value)
  {
    var attempt := p => CoordinateStep(o, query, p);
    var c := Cascade(COORDINATE_PATTERNS, attempt);
    CascadeVerdict(COORDINATE_PATTERNS, attempt);
    assert forall i :: FirstCoordinates(o, query, i) ==>
      DecidesAt(COORDINATE_PATTERNS, attempt, i);
    c.value
  }

  /** Pattern `i` is the first coordinate pattern that yields a pair. */
  ghost predicate FirstCoordinates(o: Oracles, query: string, i: int) {
    && 0 <= i < |COORDINATE_PATTERNS|
    && CoordinateStep(o, query, COORDINATE_PATTERNS[i]).Found?
    && forall j :: 0 <= j < i ==> CoordinateStep(o, query, COORDINATE_PATTERNS[j]) == Skip
  }

  /** One bounding-box pattern: the four groups parsed in order, else on to the next. */
  function BboxStep(o: Oracles, query: string, p: Pattern): Step<seq<real>> {
    match o.search(p, query, true)
    case None => Skip
    case Some(groups) =>
      if |groups| < 4 then Skip
      else
        match (o.parseFloat(groups[0]), o.parseFloat(groups[1]), o.parseFloat(groups[2]), o.parseFloat(groups[3]))
        case (Some(a), Some(b), Some(c), Some(d)) => Found([a, b, c, d])
        case _ => Skip
  }

  /** Pattern `i` is the first bounding-box pattern that yields a box. */
  ghost predicate FirstBbox(o: Oracles, query: string, i: int) {
    && 0 <= i < |BBOX_PATTERNS|
    && BboxStep(o, query, BBOX_PATTERNS[i]).Found?
    && forall j :: 0 <= j < i ==> BboxStep(o, query, BBOX_PATTERNS[j]) == Skip
  }

  /** `extract_bbox`: the four numbers, in source order, of the first pattern ("bbox"
      before "bounds") that matches and parses. */
  function ExtractBbox(o: Oracles, query: string): (r: Option<seq<real>>)
    ensures r == None <==> forall i :: 0 <= i < |BBOX_PATTERNS| ==> BboxStep(o, query, BBOX_PATTERNS[i]) == Skip
    ensures r.Some? ==> |r.value| == 4
    ensures forall i :: FirstBbox(o, query, i) ==>
      r == Some(BboxStep(o, query, BBOX_PATTERNS[i]).value)
  {
    var attempt := p => BboxStep(o, query, p);
    var c := Cascade(BBOX_PATTERNS, attempt);
    CascadeVerdict(BBOX_PATTERNS, attempt);
    assert forall i :: FirstBbox(o, query, i) ==> DecidesAt(BBOX_PATTERNS, attempt, i);
    c.value
  }

  /** When the first pattern that matches also parses, the box is its groups 1 to 4
      parsed, in source order. */
  lemma BboxFirstMatch(o: Oracles, query: string, i: int)
    requires FirstMatch(o, BBOX_PATTERNS, query, true, i) && BboxStep(o, query, BBOX_PATTERNS[i]).Found?
    ensures var g := o.search(BBOX_PATTERNS[i], query, true).value;
      ExtractBbox(o, query) == Some([o.parseFloat(g[0]).value, o.parseFloat(g[1]).value, o.parseFloat(g[2]).value, o.parseFloat(g[3]).value])
  {
    assert FirstBbox(o, query, i);
  }

  // ---------------------------------------------------------------------------------
  // Temporal range

  /** Which branch of the date-range loop handles a match. The tests are substring tests
      on the pattern's TEXT, in the source's order; the year branch also tests group 1. */
  datatype Branch = FromToBranch | SinceBranch | BeforeBranch | YearBranch | DuringBranch | NoBranch

  /** The test the year branch puts on group 1: as written, that it is four characters
      long; corrected, that it is four digits. */
  datatype YearRule = LengthFour | FourDigits

  predicate YearCapture(first: string, rule: YearRule) {
    match rule
    case LengthFour => |first| == 4
    case FourDigits => IsFourDigits(first)
  }

  function RangeBranch(text: string, first: string, rule: YearRule): Branch {
    if Contains(text, "from") || Contains(text, "between") then FromToBranch
    else if Contains(text, "since") || Contains(text, "after") then SinceBranch
    else if Contains(text, "before") then BeforeBranch
    else if Contains(text, "in") && YearCapture(first, rule) then YearBranch
    else if Contains(text, "during") then DuringBranch
    else NoBranch
  }

  /** A parsed date turned into a step: a ValueError moves on to the next pattern, an
      OverflowError escapes. */
  function OnDate(parsed: DateParse, make: Day -> Temporal): Step<Temporal> {
    match parsed
    case Parsed(d) => Found(make(d))
    case Unparsable => Skip
    case Overflow => Raise(DateOverflow)
  }

  /** `{year}-01-01` to `{year}-12-31`. */
  function YearSpan(startYear: string, endYear: string): Temporal {
    Temporal(Some(startYear + "-01-01"), Some(endYear + "-12-31"))
  }

  function FromToStep(o: Oracles, groups: seq<string>): Step<Temporal> {
    if |groups| < 2 then Raise(MissingGroup)   // match.group(2) of a one-group pattern
    else
      var startText, endText := Strip(groups[0]), Strip(groups[1]);
      if IsFourDigits(startText) && IsFourDigits(endText) then
        Found(YearSpan(startText, endText))
      else
        match o.parseDate(startText)
        case Unparsable => Skip
        case Overflow => Raise(DateOverflow)
        case Parsed(s) => OnDate(o.parseDate(endText), e => Temporal(Some(o.format(s)), Some(o.format(e))))
  }

  /** One date-range pattern tried against the query (case-insensitively). */
  function TemporalStep(o: Oracles, now: Day, query: string, rule: YearRule, p: Pattern): Step<Temporal> {
    match o.search(p, query, true)
    case None => Skip
    case Some(groups) => BranchStep(o, now, RangeBranch(p.text, groups[0], rule), groups)
  }

  /** What a branch of the date-range loop makes of the match's groups. */
  function BranchStep(o: Oracles, now: Day, branch: Branch, groups: seq<string>): Step<Temporal>
    requires |groups| >= 1
  {
    match branch
    case FromToBranch => FromToStep(o, groups)
    case SinceBranch => OnDate(o.parseDate(groups[0]), d => Temporal(Some(o.format(d)), Some(o.format(now))))
    case BeforeBranch => OnDate(o.parseDate(groups[0]), d => Temporal(None, Some(o.format(d))))
    case YearBranch => Found(YearSpan(groups[0], groups[0]))
    case DuringBranch => OnDate(o.parseDate(groups[0]), d => Temporal(Some(o.format(d)), Some(o.format(d))))
    case NoBranch => Skip
  }

  function DateRangeAttempt(o: Oracles, now: Day, query: string, rule: YearRule): Pattern -> Step<Temporal> {
    p => TemporalStep(o, now, query, rule, p)
  }

  /** The offset of the first relative keyword found in the lower-cased query. */
  function RelativeOffset(lowered: string): (r: Option<int>)
    ensures r == None <==> NoKeyword(lowered)
    ensures forall k :: FirstKeyword(lowered, k) ==> r == Some(TEMPORAL_KEYWORDS[k].1)
  {
    var attempt := (kw: (string, int)) => if Contains(lowered, kw.0) then Found(kw.1) else Skip;
    var c := Cascade(TEMPORAL_KEYWORDS, attempt);
    CascadeVerdict(TEMPORAL_KEYWORDS, attempt);
    assert forall k :: 0 <= k < |TEMPORAL_KEYWORDS| ==> (attempt(TEMPORAL_KEYWORDS[k]).Skip? <==> !Contains(lowered, TEMPORAL_KEYWORDS[k].0));
    c.value
  }

  ghost predicate NoKeyword(lowered: string) {
    forall k :: 0 <= k < |TEMPORAL_KEYWORDS| ==> !Contains(lowered, TEMPORAL_KEYWORDS[k].0)
  }

  /** Keyword `k` is the first of the table found in `lowered`. */
  ghost predicate FirstKeyword(lowered: string, k: int) {
    && 0 <= k < |TEMPORAL_KEYWORDS|
    && Contains(lowered, TEMPORAL_KEYWORDS[k].0)
    && forall j :: 0 <= j < k ==> !Contains(lowered, TEMPORAL_KEYWORDS[j].0)
  }

  /** None of the first `n` date-range patterns matches the query. */
  ghost predicate NoRangeMatchBefore(o: Oracles, query: string, n: nat) {
    forall i :: 0 <= i < n && i < |DATE_RANGE_PATTERNS| ==> o.search(DATE_RANGE_PATTERNS[i], query, true).None?
  }

  /** Each of the first `n` date-range patterns moves on: it does not match, or its
      branch meets a ValueError. */
  ghost predicate RangeSkipsBefore(o: Oracles, now: Day, query: string, rule: YearRule, n: nat) {
    forall i :: 0 <= i < n && i < |DATE_RANGE_PATTERNS| ==> TemporalStep(o, now, query, rule, DATE_RANGE_PATTERNS[i]).Skip?
  }

  /** A pattern that does not match moves on. */
  lemma NoMatchSkips(o: Oracles, now: Day, query: string, rule: YearRule, n: nat)
    requires NoRangeMatchBefore(o, query, n)
    ensures RangeSkipsBefore(o, now, query, rule, n)
  {
  }

  /** The date-range loop on its own: the first pattern whose branch yields a range
      decides; None when no pattern matches. */
  function DateRangeTemporal(o: Oracles, now: Day, query: string, rule: YearRule): (r: Result<Option<Temporal>, ExtractionError>)
    ensures NoRangeMatchBefore(o, query, |DATE_RANGE_PATTERNS|) ==> r == Ok(None)
    ensures r.Ok? && r.value.Some? ==> r.value.value.endDate.Some?
    ensures r.Err? ==> r.error == DateOverflow
  {
    var attempt := DateRangeAttempt(o, now, query, rule);
    DateRangeStepsEndDated(o, now, query, rule);
    assert NoRangeMatchBefore(o, query, |DATE_RANGE_PATTERNS|) ==> AllSkip(DATE_RANGE_PATTERNS, attempt, |DATE_RANGE_PATTERNS|);
    CascadeVerdict(DATE_RANGE_PATTERNS, attempt);
    Cascade(DATE_RANGE_PATTERNS, attempt)
  }

  /** `extract_temporal`: a relative keyword wins over every pattern and spans from
      now + offset to now; otherwise the date-range loop decides. Every range it returns
      has an end date, and only the date parser's overflow escapes. With `rule`
      LengthFour this is the source as written. */
  function ExtractTemporal(o: Oracles, now: Day, query: string, rule: YearRule): (r: Result<Option<Temporal>, ExtractionError>)
    ensures r.Ok? && r.value.Some? ==> r.value.value.endDate.Some?
    ensures r.Err? ==> r.error == DateOverflow
  {
    match RelativeOffset(Lower(query))
    case Some(offset) => Ok(Some(Temporal(Some(o.format(now + offset)), Some(o.format(now)))))
    case None => DateRangeTemporal(o, now, query, rule)
  }
  /** The first keyword of the table found in the lower-cased query decides, whatever
      the date-range patterns would match. */
  lemma KeywordPrecedence(o: Oracles, now: Day, query: string, rule: YearRule, k: int)
    requires FirstKeyword(Lower(query), k)
    ensures ExtractTemporal(o, now, query, rule) == Ok(Some(Temporal(Some(o.format(now + TEMPORAL_KEYWORDS[k].1)), Some(o.format(now)))))
  {
    KeywordOffset(Lower(query), k);
    OffsetDecides(o, now, query, rule, TEMPORAL_KEYWORDS[k].1);
  }

  lemma KeywordOffset(lowered: string, k: int)
    requires FirstKeyword(lowered, k)
    ensures RelativeOffset(lowered) == Some(TEMPORAL_KEYWORDS[k].1)
  {
  }

  lemma OffsetDecides(o: Oracles, now: Day, query: string, rule: YearRule, offset: int)
    requires RelativeOffset(Lower(query)) == Some(offset)
    ensures ExtractTemporal(o, now, query, rule) == Ok(Some(Temporal(Some(o.format(now + offset)), Some(o.format(now)))))
  {
  }

  /** With no keyword the date-range loop decides, and when no pattern matches either
      the result is None. */
  lemma NoKeywordFallsThrough(o: Oracles, now: Day, query: string, rule: YearRule)
    requires NoKeyword(Lower(query))
    ensures ExtractTemporal(o, now, query, rule) == DateRangeTemporal(o, now, query, rule)
    ensures NoRangeMatchBefore(o, query, |DATE_RANGE_PATTERNS|) ==> ExtractTemporal(o, now, query, rule) == Ok(None)
  {
  }


  /** The branch each date-range pattern of the table takes. "during" contains "in", so
      a capture after "during" that passes the year test takes the year branch. */
  lemma BranchTable(first: string, rule: YearRule)
    ensures RangeBranch(FROM_TO.text, first, rule) == FromToBranch
    ensures RangeBranch(BETWEEN_AND.text, first, rule) == FromToBranch
    ensures RangeBranch(SINCE.text, first, rule) == SinceBranch
    ensures RangeBranch(AFTER.text, first, rule) == SinceBranch
    ensures RangeBranch(BEFORE.text, first, rule) == BeforeBranch
    ensures RangeBranch(IN_YEAR.text, first, rule) == if YearCapture(first, rule) then YearBranch else NoBranch
    ensures RangeBranch(DURING.text, first, rule) == if YearCapture(first, rule) then YearBranch else DuringBranch
  {
    FromToTakesFromToBranch(first, rule);
    BetweenTakesFromToBranch(first, rule);
    SinceTakesSinceBranch(first, rule);
    AfterTakesSinceBranch(first, rule);
    BeforeTakesBeforeBranch(first, rule);
    InYearTakesYearBranch(first, rule);
    DuringTakesYearOrDuringBranch(first, rule);
  }

  lemma FromToTakesFromToBranch(first: string, rule: YearRule)
    ensures RangeBranch(FROM_TO.text, first, rule) == FromToBranch
  {
    assert OccursAt(FROM_TO.text, "from", 0);
  }

  lemma BetweenTakesFromToBranch(first: string, rule: YearRule)
    ensures RangeBranch(BETWEEN_AND.text, first, rule) == FromToBranch
  {
    assert OccursAt(BETWEEN_AND.text, "between", 0);
  }

  lemma SinceTakesSinceBranch(first: string, rule: YearRule)
    ensures RangeBranch(SINCE.text, first, rule) == SinceBranch
  {
    assert OccursAt(SINCE.text, "since", 0);
    SinceKeywordsAbsent();
  }

  lemma AfterTakesSinceBranch(first: string, rule: YearRule)
    ensures RangeBranch(AFTER.text, first, rule) == SinceBranch
  {
    assert OccursAt(AFTER.text, "after", 0);
    AfterKeywordsAbsent();
  }

  lemma BeforeTakesBeforeBranch(first: string, rule: YearRule)
    ensures RangeBranch(BEFORE.text, first, rule) == BeforeBranch
  {
    assert OccursAt(BEFORE.text, "before", 0);
    BeforeKeywordsAbsent();
  }

  lemma InYearTakesYearBranch(first: string, rule: YearRule)
    ensures RangeBranch(IN_YEAR.text, first, rule) == if YearCapture(first, rule) then YearBranch else NoBranch
  {
    assert OccursAt(IN_YEAR.text, "in", 0);
    InYearKeywordsAbsent();
  }

  lemma DuringTakesYearOrDuringBranch(first: string, rule: YearRule)
    ensures RangeBranch(DURING.text, first, rule) == if YearCapture(first, rule) then YearBranch else DuringBranch
  {
    assert OccursAt(DURING.text, "in", 3);
    assert OccursAt(DURING.text, "during", 0);
    DuringKeywordsAbsent();
  }

  // The keyword tests that fail on the table's texts, each because one character of the
  // keyword never occurs in the text.

  lemma SinceKeywordsAbsent()
    ensures !Contains(SINCE.text, "from")
    ensures !Contains(SINCE.text, "between")
  {
    assert forall i :: 0 <= i < |SINCE.text| ==> SINCE.text[i] !in "fb";
    MissingCharRulesOut(SINCE.text, "from", 'f');
    MissingCharRulesOut(SINCE.text, "between", 'b');
  }

  lemma AfterKeywordsAbsent()
    ensures !Contains(AFTER.text, "from")
    ensures !Contains(AFTER.text, "between")
  {
    assert forall i :: 0 <= i < |AFTER.text| ==> AFTER.text[i] !in "mb";
    MissingCharRulesOut(AFTER.text, "from", 'm');
    MissingCharRulesOut(AFTER.text, "between", 'b');
  }

  lemma BeforeKeywordsAbsent()
    ensures !Contains(BEFORE.text, "from")
    ensures !Contains(BEFORE.text, "between")
    ensures !Contains(BEFORE.text, "since")
    ensures !Contains(BEFORE.text, "after")
  {
    assert forall i :: 0 <= i < |BEFORE.text| ==> BEFORE.text[i] !in "mtia";
    MissingCharRulesOut(BEFORE.text, "from", 'm');
    MissingCharRulesOut(BEFORE.text, "between", 't');
    MissingCharRulesOut(BEFORE.text, "since", 'i');
    MissingCharRulesOut(BEFORE.text, "after", 'a');
  }

  lemma InYearKeywordsAbsent()
    ensures !Contains(IN_YEAR.text, "from")
    ensures !Contains(IN_YEAR.text, "between")
    ensures !Contains(IN_YEAR.text, "since")
    ensures !Contains(IN_YEAR.text, "after")
    ensures !Contains(IN_YEAR.text, "before")
    ensures !Contains(IN_YEAR.text, "during")
  {
    assert forall i :: 0 <= i < |IN_YEAR.text| ==> IN_YEAR.text[i] !in "fbcau";
    MissingCharRulesOut(IN_YEAR.text, "from", 'f');
    MissingCharRulesOut(IN_YEAR.text, "between", 'b');
    MissingCharRulesOut(IN_YEAR.text, "since", 'c');
    MissingCharRulesOut(IN_YEAR.text, "after", 'a');
    MissingCharRulesOut(IN_YEAR.text, "before", 'b');
    MissingCharRulesOut(IN_YEAR.text, "during", 'u');
  }

  lemma DuringKeywordsAbsent()
    ensures !Contains(DURING.text, "from")
    ensures !Contains(DURING.text, "between")
    ensures !Contains(DURING.text, "since")
    ensures !Contains(DURING.text, "after")
    ensures !Contains(DURING.text, "before")
  {
    assert forall i :: 0 <= i < |DURING.text| ==> DURING.text[i] !in "fbca";
    MissingCharRulesOut(DURING.text, "from", 'f');
    MissingCharRulesOut(DURING.text, "between", 'b');
    MissingCharRulesOut(DURING.text, "since", 'c');
    MissingCharRulesOut(DURING.text, "after", 'a');
    MissingCharRulesOut(DURING.text, "before", 'b');
  }

  /** Every date-range step that yields a range sets its end date, and the only
      exception a table pattern lets escape is the date parser's overflow. */
  lemma DateRangeStepsEndDated(o: Oracles, now: Day, query: string, rule: YearRule)
    ensures forall i :: 0 <= i < |DATE_RANGE_PATTERNS| && TemporalStep(o, now, query, rule, DATE_RANGE_PATTERNS[i]).Found? ==>
      TemporalStep(o, now, query, rule, DATE_RANGE_PATTERNS[i]).value.endDate.Some?
    ensures forall i :: 0 <= i < |DATE_RANGE_PATTERNS| && TemporalStep(o, now, query, rule, DATE_RANGE_PATTERNS[i]).Raise? ==>
      TemporalStep(o, now, query, rule, DATE_RANGE_PATTERNS[i]).error == DateOverflow
  {
    forall p: Pattern {
      StepEndDated(o, now, query, rule, p);
    }
    forall i | 0 <= i < |DATE_RANGE_PATTERNS|
      ensures TemporalStep(o, now, query, rule, DATE_RANGE_PATTERNS[i]).Raise? ==> TemporalStep(o, now, query, rule, DATE_RANGE_PATTERNS[i]).error == DateOverflow
    {
      StepRaisesOnlyOverflow(o, now, query, rule, i);
    }
  }

  /** Only the two-group patterns take the from/to branch, so a table pattern never asks
      for a missing group. */
  lemma StepRaisesOnlyOverflow(o: Oracles, now: Day, query: string, rule: YearRule, i: nat)
    requires i < |DATE_RANGE_PATTERNS|
    ensures var step := TemporalStep(o, now, query, rule, DATE_RANGE_PATTERNS[i]);
      step.Raise? ==> step.error == DateOverflow
  {
    var p := DATE_RANGE_PATTERNS[i];
    match o.search(p, query, true)
    case None =>
    case Some(groups) =>
      MatchTakesBranch(o, now, query, rule, p, groups);
      FromToOnlyForPairs(i, groups[0], rule);
      BranchRaisesOnlyOverflow(o, now, RangeBranch(p.text, groups[0], rule), groups);
  }

  lemma FromToOnlyForPairs(i: nat, first: string, rule: YearRule)
    requires i < |DATE_RANGE_PATTERNS|
    ensures RangeBranch(DATE_RANGE_PATTERNS[i].text, first, rule) == FromToBranch ==> DATE_RANGE_PATTERNS[i].groups == 2
  {
    RangeTable();
    BranchTable(first, rule);
  }

  lemma BranchRaisesOnlyOverflow(o: Oracles, now: Day, branch: Branch, groups: seq<string>)
    requires |groups| >= 1 && (branch == FromToBranch ==> |groups| >= 2)
    ensures BranchStep(o, now, branch, groups).Raise? ==> BranchStep(o, now, branch, groups).error == DateOverflow
  {
  }

  /** Every branch sets the end date. */
  lemma StepEndDated(o: Oracles, now: Day, query: string, rule: YearRule, p: Pattern)
    ensures TemporalStep(o, now, query, rule, p).Found? ==> TemporalStep(o, now, query, rule, p).value.endDate.Some?
  {
    match o.search(p, query, true)
    case None =>
    case Some(groups) =>
      if RangeBranch(p.text, groups[0], rule) == FromToBranch {
        FromToStepEndDated(o, groups);
      }
  }

  lemma FromToStepEndDated(o: Oracles, groups: seq<string>)
    ensures FromToStep(o, groups).Found? ==> FromToStep(o, groups).value.endDate.Some?
  {
  }

  /** The from/to branch on two four-digit years. */
  lemma FromToBranchYears(o: Oracles, now: Day, a: string, b: string)
    requires IsFourDigits(Strip(a)) && IsFourDigits(Strip(b))
    ensures BranchStep(o, now, FromToBranch, [a, b]) == Found(YearSpan(Strip(a), Strip(b)))
  {
    FromToStepYears(o, [a, b]);
  }

  /** Two four-digit years, once stripped, span from the first's January 1 to the
      second's December 31. */
  lemma FromToStepYears(o: Oracles, groups: seq<string>)
    requires |groups| == 2 && IsFourDigits(Strip(groups[0])) && IsFourDigits(Strip(groups[1]))
    ensures FromToStep(o, groups) == Found(YearSpan(Strip(groups[0]), Strip(groups[1])))
  {
  }

  /** The table's entries, by position. */
  lemma RangeTable()
    ensures DATE_RANGE_PATTERNS[0] == FROM_TO && DATE_RANGE_PATTERNS[1] == BETWEEN_AND
    ensures DATE_RANGE_PATTERNS[2] == SINCE && DATE_RANGE_PATTERNS[3] == AFTER
    ensures DATE_RANGE_PATTERNS[4] == BEFORE && DATE_RANGE_PATTERNS[5] == IN_YEAR
    ensures DATE_RANGE_PATTERNS[6] == DURING
  {
  }

  /** A match hands its groups to the branch its pattern's text selects. */
  lemma MatchTakesBranch(o: Oracles, now: Day, query: string, rule: YearRule, p: Pattern, groups: seq<string>)
    requires o.search(p, query, true) == Some(groups)
    ensures |groups| == p.groups
    ensures TemporalStep(o, now, query, rule, p) == BranchStep(o, now, RangeBranch(p.text, groups[0], rule), groups)
  {
  }

  /** When the first `i` patterns do not match and pattern `i` yields a range, that
      range is the result of the loop. */
  lemma FirstRangeDecides(o: Oracles, now: Day, query: string, rule: YearRule, i: nat, t: Temporal)
    requires i < |DATE_RANGE_PATTERNS| && RangeSkipsBefore(o, now, query, rule, i)
    requires TemporalStep(o, now, query, rule, DATE_RANGE_PATTERNS[i]) == Found(t)
    ensures DateRangeTemporal(o, now, query, rule) == Ok(Some(t))
  {
    var attempt := DateRangeAttempt(o, now, query, rule);
    assert AllSkip(DATE_RANGE_PATTERNS, attempt, i);
    assert DecidesAt(DATE_RANGE_PATTERNS, attempt, i);
    CascadeVerdict(DATE_RANGE_PATTERNS, attempt);
  }

  // ---------------------------------------------------------------------------------
  // What each branch yields, for the query shapes the table is written for

  /** "from Y1 to Y2" with two four-digit years spans from Y1-01-01 to Y2-12-31; the
      captures are stripped first. */
  lemma FromToYears(o: Oracles, now: Day, query: string, rule: YearRule, a: string, b: string)
    requires o.search(FROM_TO, query, true) == Some([a, b])
    requires IsFourDigits(Strip(a)) && IsFourDigits(Strip(b))
    ensures DateRangeTemporal(o, now, query, rule) == Ok(Some(YearSpan(Strip(a), Strip(b))))
  {
    RangeTable();
    MatchTakesBranch(o, now, query, rule, FROM_TO, [a, b]);
    FromToTakesFromToBranch(a, rule);
    FromToBranchYears(o, now, a, b);
    FirstRangeDecides(o, now, query, rule, 0, YearSpan(Strip(a), Strip(b)));
  }

  /** "from D1 to D2" with two parsable dates spans their formatted days; an unparsable
      one would move on to the next pattern instead. */
  lemma FromToDates(o: Oracles, now: Day, query: string, rule: YearRule, a: string, b: string, d1: Day, d2: Day)
    requires o.search(FROM_TO, query, true) == Some([a, b])
    requires !(IsFourDigits(Strip(a)) && IsFourDigits(Strip(b)))
    requires o.parseDate(Strip(a)) == Parsed(d1) && o.parseDate(Strip(b)) == Parsed(d2)
    ensures DateRangeTemporal(o, now, query, rule) == Ok(Some(Temporal(Some(o.format(d1)), Some(o.format(d2)))))
  {
    RangeTable();
    MatchTakesBranch(o, now, query, rule, FROM_TO, [a, b]);
    FromToTakesFromToBranch(a, rule);
    FirstRangeDecides(o, now, query, rule, 0, Temporal(Some(o.format(d1)), Some(o.format(d2))));
  }

  /** "between Y1 and Y2" behaves as "from Y1 to Y2" when no "from" range matched. */
  lemma BetweenYears(o: Oracles, now: Day, query: string, rule: YearRule, a: string, b: string)
    requires RangeSkipsBefore(o, now, query, rule, 1)
    requires o.search(BETWEEN_AND, query, true) == Some([a, b])
    requires IsFourDigits(Strip(a)) && IsFourDigits(Strip(b))
    ensures DateRangeTemporal(o, now, query, rule) == Ok(Some(YearSpan(Strip(a), Strip(b))))
  {
    RangeTable();
    MatchTakesBranch(o, now, query, rule, BETWEEN_AND, [a, b]);
    BetweenTakesFromToBranch(a, rule);
    FromToBranchYears(o, now, a, b);
    FirstRangeDecides(o, now, query, rule, 1, YearSpan(Strip(a), Strip(b)));
  }

  /** "since D" runs from D to today. */
  lemma SinceEndsToday(o: Oracles, now: Day, query: string, rule: YearRule, g: string, d: Day)
    requires RangeSkipsBefore(o, now, query, rule, 2)
    requires o.search(SINCE, query, true) == Some([g]) && o.parseDate(g) == Parsed(d)
    ensures DateRangeTemporal(o, now, query, rule) == Ok(Some(Temporal(Some(o.format(d)), Some(o.format(now)))))
  {
    RangeTable();
    MatchTakesBranch(o, now, query, rule, SINCE, [g]);
    SinceTakesSinceBranch(g, rule);
    FirstRangeDecides(o, now, query, rule, 2, Temporal(Some(o.format(d)), Some(o.format(now))));
  }

  /** "after D" runs from D to today, like "since D". */
  lemma AfterEndsToday(o: Oracles, now: Day, query: string, rule: YearRule, g: string, d: Day)
    requires RangeSkipsBefore(o, now, query, rule, 3)
    requires o.search(AFTER, query, true) == Some([g]) && o.parseDate(g) == Parsed(d)
    ensures DateRangeTemporal(o, now, query, rule) == Ok(Some(Temporal(Some(o.format(d)), Some(o.format(now)))))
  {
    RangeTable();
    MatchTakesBranch(o, now, query, rule, AFTER, [g]);
    AfterTakesSinceBranch(g, rule);
    FirstRangeDecides(o, now, query, rule, 3, Temporal(Some(o.format(d)), Some(o.format(now))));
  }

  /** "before D" sets only the end date. */
  lemma BeforeSetsOnlyEnd(o: Oracles, now: Day, query: string, rule: YearRule, g: string, d: Day)
    requires RangeSkipsBefore(o, now, query, rule, 4)
    requires o.search(BEFORE, query, true) == Some([g]) && o.parseDate(g) == Parsed(d)
    ensures DateRangeTemporal(o, now, query, rule) == Ok(Some(Temporal(None, Some(o.format(d)))))
  {
    RangeTable();
    MatchTakesBranch(o, now, query, rule, BEFORE, [g]);
    BeforeTakesBeforeBranch(g, rule);
    FirstRangeDecides(o, now, query, rule, 4, Temporal(None, Some(o.format(d))));
  }

  /** "in YYYY" spans the whole year. */
  lemma InYearSpansYear(o: Oracles, now: Day, query: string, rule: YearRule, y: string)
    requires RangeSkipsBefore(o, now, query, rule, 5)
    requires o.search(IN_YEAR, query, true) == Some([y]) && IsFourDigits(y)
    ensures DateRangeTemporal(o, now, query, rule) == Ok(Some(YearSpan(y, y)))
  {
    RangeTable();
    MatchTakesBranch(o, now, query, rule, IN_YEAR, [y]);
    InYearTakesYearBranch(y, rule);
    FirstRangeDecides(o, now, query, rule, 5, YearSpan(y, y));
  }

  /** "during X" where X passes the year test takes the year branch, because the
      pattern's text contains "in". */
  lemma DuringYearCapture(o: Oracles, now: Day, query: string, rule: YearRule, g: string)
    requires RangeSkipsBefore(o, now, query, rule, 6)
    requires o.search(DURING, query, true) == Some([g]) && YearCapture(g, rule)
    ensures DateRangeTemporal(o, now, query, rule) == Ok(Some(YearSpan(g, g)))
  {
    RangeTable();
    MatchTakesBranch(o, now, query, rule, DURING, [g]);
    DuringTakesYearOrDuringBranch(g, rule);
    FirstRangeDecides(o, now, query, rule, 6, YearSpan(g, g));
  }

  /** "during D" otherwise starts and ends on the parsed day. */
  lemma DuringSingleDay(o: Oracles, now: Day, query: string, rule: YearRule, g: string, d: Day)
    requires RangeSkipsBefore(o, now, query, rule, 6)
    requires o.search(DURING, query, true) == Some([g]) && !YearCapture(g, rule) && o.parseDate(g) == Parsed(d)
    ensures DateRangeTemporal(o, now, query, rule) == Ok(Some(Temporal(Some(o.format(d)), Some(o.format(d)))))
  {
    RangeTable();
    MatchTakesBranch(o, now, query, rule, DURING, [g]);
    DuringTakesYearOrDuringBranch(g, rule);
    FirstRangeDecides(o, now, query, rule, 6, Temporal(Some(o.format(d)), Some(o.format(d))));
  }

  // ---------------------------------------------------------------------------------
  // The year branch and month names

  /** `YYYY-MM-DD` with ASCII digits. */
  predicate IsIsoDate(s: string) {
    |s| == 10 && forall i :: 0 <= i < 10 ==> if i == 4 || i == 7 then s[i] == '-' else IsDigit(s[i])
  }

  predicate IsoDates(t: Temporal) {
    && (t.startDate.Some? ==> IsIsoDate(t.startDate.value))
    && (t.endDate.Some? ==> IsIsoDate(t.endDate.value))
  }

  lemma YearSpanIso(a: string, b: string)
    requires IsFourDigits(a) && IsFourDigits(b)
    ensures IsoDates(YearSpan(a, b))
  {
    var s, e := a + "-01-01", b + "-12-31";
    assert forall i :: 0 <= i < 4 ==> s[i] == a[i] && e[i] == b[i];
    assert s[4..] == "-01-01" && e[4..] == "-12-31";
  }

  /** As written, "data during June" takes the year branch ("June" is four characters
      long) and yields the dates "June-01-01" and "June-12-31", which are not dates. */
  lemma DuringMonthTakesYearBranch(o: Oracles, now: Day)
    requires NoRangeMatchBefore(o, "data during June", 6)
    requires o.search(DURING, "data during June", true) == Some(["June"])
    ensures ExtractTemporal(o, now, "data during June", LengthFour) == Ok(Some(YearSpan("June", "June")))
    ensures !IsIsoDate(YearSpan("June", "June").startDate.value)
  {
    NoKeywordInDuringJune();
    var start := YearSpan("June", "June").startDate.value;
    assert start[0] == 'J' && !IsDigit(start[0]);
    NoMatchSkips(o, now, "data during June", LengthFour, 6);
    DuringYearCapture(o, now, "data during June", LengthFour, "June");
    assert RelativeOffset(Lower("data during June")) == None;
  }

  lemma NoKeywordInDuringJune()
    ensures NoKeyword(Lower("data during June"))
  {
    var lowered := Lower("data during June");
    assert forall i :: 0 <= i < |lowered| ==> lowered[i] !in "yl";
    MissingCharRulesOut(lowered, "today", 'y');
    MissingCharRulesOut(lowered, "yesterday", 'y');
    MissingCharRulesOut(lowered, "last week", 'l');
    MissingCharRulesOut(lowered, "last month", 'l');
    MissingCharRulesOut(lowered, "last year", 'l');
  }

  /** With the corrected year test, every date extracted is an ISO date as long as
      `strftime` yields ISO dates. */
  lemma CorrectedDatesAreIso(o: Oracles, now: Day, query: string)
    requires forall d :: IsIsoDate(o.format(d))
    ensures var r := ExtractTemporal(o, now, query, FourDigits);
      r.Ok? && r.value.Some? ==> IsoDates(r.value.value)
  {
    var r := ExtractTemporal(o, now, query, FourDigits);
    if r.Ok? && r.value.Some? && RelativeOffset(Lower(query)).None? {
      var attempt := DateRangeAttempt(o, now, query, FourDigits);
      CascadeVerdict(DATE_RANGE_PATTERNS, attempt);
      var i :| DecidesAt(DATE_RANGE_PATTERNS, attempt, i);
      CorrectedStepIso(o, now, query, DATE_RANGE_PATTERNS[i]);
    }
  }

  lemma CorrectedStepIso(o: Oracles, now: Day, query: string, p: Pattern)
    requires forall d :: IsIsoDate(o.format(d))
    ensures TemporalStep(o, now, query, FourDigits, p).Found? ==> IsoDates(TemporalStep(o, now, query, FourDigits, p).value)
  {
    if o.search(p, query, true).Some? {
      var groups := o.search(p, query, true).value;
      match RangeBranch(p.text, groups[0], FourDigits)
      case FromToBranch =>
        FromToStepIso(o, groups);
      case YearBranch => YearSpanIso(groups[0], groups[0]);
      case _ =>
    }
  }

  lemma FromToStepDates(o: Oracles, groups: seq<string>)
    requires forall d :: IsIsoDate(o.format(d))
    requires !(|groups| >= 2 && IsFourDigits(Strip(groups[0])) && IsFourDigits(Strip(groups[1])))
    ensures FromToStep(o, groups).Found? ==> IsoDates(FromToStep(o, groups).value)
  {
  }
  lemma FromToStepIso(o: Oracles, groups: seq<string>)
    requires forall d :: IsIsoDate(o.format(d))
    ensures FromToStep(o, groups).Found? ==> IsoDates(FromToStep(o, groups).value)
  {
    if |groups| >= 2 && IsFourDigits(Strip(groups[0])) && IsFourDigits(Strip(groups[1])) {
      FromToStepYears(o, groups[..2]);
      assert FromToStep(o, groups) == FromToStep(o, groups[..2]);
      YearSpanIso(Strip(groups[0]), Strip(groups[1]));
    } else {
      FromToStepDates(o, groups);
    }
  }

  /** With the corrected year test, "data during June" reaches the `during` branch and
      yields the parsed day. */
  lemma DuringMonthCorrected(o: Oracles, now: Day, d: Day)
    requires NoRangeMatchBefore(o, "data during June", 6)
    requires o.search(DURING, "data during June", true) == Some(["June"])
    requires o.parseDate("June") == Parsed(d)
    ensures ExtractTemporal(o, now, "data during June", FourDigits) == Ok(Some(Temporal(Some(o.format(d)), Some(o.format(d)))))
  {
    NoKeywordInDuringJune();
    assert !IsDigit("June"[0]);
    NoMatchSkips(o, now, "data during June", FourDigits, 6);
    DuringSingleDay(o, now, "data during June", FourDigits, "June", d);
    assert RelativeOffset(Lower("data during June")) == None;
  }

  // ---------------------------------------------------------------------------------
  // The parameter dictionary

  /** The geocoder is consulted when a (non-empty) place name was found and neither a
      bounding box nor a coordinate pair was. */
  predicate NeedsGeocoding(location: Option<string>, coordinates: Option<Coordinates>, bbox: Option<seq<real>>) {
    location.Some? && location.value != "" && (bbox.None? || bbox.value == []) && coordinates.None?
  }

  /** The dictionary before the geocoder step: "query", then each sub-extractor's value
      under its key when that value is truthy. */
  function Assemble(query: string, location: Option<string>, coordinates: Option<Coordinates>,
                    bbox: Option<seq<real>>, temporal: Option<Temporal>): (p: map<string, ParamValue>)
    ensures WellTyped(p) && p["query"] == Str(query)
    ensures "location" in p <==> location.Some? && location.value != ""
    ensures "location" in p ==> p["location"] == Str(location.value)
    ensures "coordinates" in p <==> coordinates.Some?
    ensures "coordinates" in p ==> p["coordinates"] == Pair(coordinates.value)
    ensures "bbox" in p <==> bbox.Some? && bbox.value != []
    ensures "bbox" in p ==> p["bbox"] == Numbers(bbox.value)
    ensures "temporal" in p <==> temporal.Some? && TemporalTruthy(temporal.value)
    ensures "temporal" in p ==> p["temporal"] == Range(temporal.value)
  {
    var p0 := map["query" := Str(query)];
    var p1 := if location.Some? && location.value != "" then p0["location" := Str(location.value)] else p0;
    var p2 := if coordinates.Some? then p1["coordinates" := Pair(coordinates.value)] else p1;
    var p3 := if bbox.Some? && bbox.value != [] then p2["bbox" := Numbers(bbox.value)] else p2;
    if temporal.Some? && TemporalTruthy(temporal.value) then p3["temporal" := Range(temporal.value)] else p3
  }

  /** A temporal dictionary is truthy when it has a key. */
  predicate TemporalTruthy(t: Temporal) {
    t.startDate.Some? || t.endDate.Some?
  }

  /** What `extract_parameters` returns. */
  function Parameters(o: Oracles, geocode: Geocoder, now: Day, query: string, rule: YearRule): (r: Result<map<string, ParamValue>, ExtractionError>)
    ensures r.Ok? ==> WellTyped(r.value) && r.value["query"] == Str(query)
  {
    Combine(geocode, query, ExtractLocation(o, query), ExtractCoordinates(o, query), ExtractBbox(o, query),
            ExtractTemporal(o, now, query, rule))
  }

  /** The dictionary made of the sub-extractors' results: an error of the temporal
      extractor escapes, and the geocoder step runs last. */
  function Combine(geocode: Geocoder, query: string, location: Option<string>, coordinates: Option<Coordinates>,
                   bbox: Option<seq<real>>, temporal: Result<Option<Temporal>, ExtractionError>)
    : (r: Result<map<string, ParamValue>, ExtractionError>)
    ensures r.Ok? ==> WellTyped(r.value) && r.value["query"] == Str(query)
  {
    match temporal
    case Err(e) => Err(e)
    case Ok(t) =>
      var found := Assemble(query, location, coordinates, bbox, t);
      if NeedsGeocoding(location, coordinates, bbox) then
        match geocode(location.value)
        case GeocodingRaised => Err(GeocodingFailed)
        case Geocoded(box) => Ok(found["bbox" := if box.Some? then Numbers(box.value) else Null])
      else
        Ok(found)
  }

  /** `extract_parameters`: starts from {"query": query}, adds each sub-extractor's
      value when it is truthy, then, when a place name was found without a box or a
      coordinate pair, stores the geocoder's box (or None) under "bbox". */
  method ExtractParameters(o: Oracles, geocode: Geocoder, now: Day, query: string, rule: YearRule) returns (r: Result<map<string, ParamValue>, ExtractionError>)
    ensures r == Parameters(o, geocode, now, query, rule)
  {
    var params := map["query" := Str(query)];
    var location := ExtractLocation(o, query);
    if location.Some? && location.value != "" {
      params := params["location" := Str(location.value)];
    }
    var coordinates := ExtractCoordinates(o, query);
    if coordinates.Some? {
      params := params["coordinates" := Pair(coordinates.value)];
    }
    var bbox := ExtractBbox(o, query);
    if bbox.Some? && bbox.value != [] {
      params := params["bbox" := Numbers(bbox.value)];
    }
    var temporal := ExtractTemporal(o, now, query, rule);
    if temporal.Err? {
      return Err(temporal.error);
    }
    if temporal.value.Some? && TemporalTruthy(temporal.value.value) {
      params := params["temporal" := Range(temporal.value.value)];
    }
    if NeedsGeocoding(location, coordinates, bbox) {
      var geocoded := geocode(location.value);
      if geocoded.GeocodingRaised? {
        return Err(GeocodingFailed);
      }
      params := params["bbox" := if geocoded.bbox.Some? then Numbers(geocoded.bbox.value) else Null];
    }
    return Ok(params);
  }

  /** The result is the assembled dictionary except, possibly, for "bbox", which the
      geocoder step adds exactly when it runs; so (by `Assemble`) each optional key is
      present exactly when its sub-extractor found a truthy value, and holds it. */
  lemma ParametersKeys(geocode: Geocoder, query: string, location: Option<string>, coordinates: Option<Coordinates>,
                       bbox: Option<seq<real>>, temporal: Result<Option<Temporal>, ExtractionError>)
    requires Combine(geocode, query, location, coordinates, bbox, temporal).Ok?
    ensures var p := Combine(geocode, query, location, coordinates, bbox, temporal).value;
      var found := Assemble(query, location, coordinates, bbox, temporal.value);
      && (forall k :: k != "bbox" ==> (k in p <==> k in found) && (k in p ==> p[k] == found[k]))
      && ("bbox" in p <==> "bbox" in found || NeedsGeocoding(location, coordinates, bbox))
  {
    var p := Combine(geocode, query, location, coordinates, bbox, temporal).value;
    KeysAfterGeocoding(Assemble(query, location, coordinates, bbox, temporal.value), p,
                       NeedsGeocoding(location, coordinates, bbox), if "bbox" in p then p["bbox"] else Null);
  }

  /** The geocoder step touches "bbox" only. */
  lemma KeysAfterGeocoding(found: map<string, ParamValue>, p: map<string, ParamValue>, geocoded: bool, box: ParamValue)
    requires p == if geocoded then found["bbox" := box] else found
    ensures forall k :: k != "bbox" ==> (k in p <==> k in found) && (k in p ==> p[k] == found[k])
    ensures "bbox" in p <==> "bbox" in found || geocoded
  {
  }

  /** An extracted bounding box is kept, and the geocoder's box is stored only when
      neither a box nor a coordinate pair was extracted; a geocoder failure escapes, and
      so does a temporal error. */
  lemma GeocodedBbox(geocode: Geocoder, query: string, location: Option<string>, coordinates: Option<Coordinates>,
                     bbox: Option<seq<real>>, temporal: Result<Option<Temporal>, ExtractionError>)
    ensures var p := Combine(geocode, query, location, coordinates, bbox, temporal);
      && (temporal.Err? ==> p == Err(temporal.error))
      && (temporal.Ok? && bbox.Some? && bbox.value != [] ==> p.Ok? && p.value["bbox"] == Numbers(bbox.value))
      && (temporal.Ok? && NeedsGeocoding(location, coordinates, bbox) ==>
            match geocode(location.value)
            case GeocodingRaised => p == Err(GeocodingFailed)
            case Geocoded(box) => p.Ok? && p.value["bbox"] == if box.Some? then Numbers(box.value) else Null)
  {
  }

  /** The geocoder is consulted only when needed: two geocoders give the same
      dictionary whenever a box or a coordinate pair was found, or no place name was. */
  lemma GeocoderOnlyWhenNeeded(g1: Geocoder, g2: Geocoder, query: string, location: Option<string>,
                               coordinates: Option<Coordinates>, bbox: Option<seq<real>>,
                               temporal: Result<Option<Temporal>, ExtractionError>)
    requires !NeedsGeocoding(location, coordinates, bbox)
    ensures Combine(g1, query, location, coordinates, bbox, temporal) == Combine(g2, query, location, coordinates, bbox, temporal)
  {
  }
}
