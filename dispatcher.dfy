/** The query dispatcher (midstac/dispatcher.py): normalises NASA CMR and STAC records
    into `DatasetSummary`, builds the keyword arguments of the two catalog searches, and
    fans a query out over its keywords and the selected catalogs.

    The catalog services are oracles: `earthaccess.search_datasets` is a `NasaBackend`,
    `Client.open(url).collection_search(...)` followed by `collection_list()` is a
    `StacBackend`; either gives None when it raises. */
module Dispatcher {
  import opened Wrappers
  import opened Text
  import opened Models
  import opened PyJson
  import opened UrlParse

  // ---------------------------------------------------------------------------------
  // NASA CMR records

  /** An earthaccess collection record: its `umm` metadata and its `meta` header. */
  datatype NasaRecord = NasaRecord(umm: seq<(string, Json)>, meta: seq<(string, Json)>)

  /** `result.get_umm(field)`: the field's value, or "" when the field is missing. */
  function GetUmm(record: NasaRecord, field: string): Json {
    match Lookup(record.umm, field)
    case Some(v) => v
    case None => JStr("")
  }

  /** The exceptions that end the formatting of one record: the `DatasetFormattingError`
      `format_nasa_dataset` wraps every failure in, and pydantic's ValidationError when a
      STAC collection has no title. */
  datatype FormatError = DatasetFormattingError | ValidationError

  /** One `RelatedUrls` entry: a link when `"URL" in entry and "Type" in entry`, nothing
      when either test is false. The tests and the indexing raise on values that are not
      dicts (a str passes the tests by substring and then cannot be indexed), and a
      `Link` refuses values that are not str. */
  function LinkOf(entry: Json): (r: Result<Option<Link>, FormatError>)
    ensures entry.JObj? && "URL" in Keys(entry.fields) && "Type" in Keys(entry.fields) ==>
      (r.Ok? <==> GetItem(entry, "URL").value.JStr? && GetItem(entry, "Type").value.JStr?)
    ensures entry.JObj? && !("URL" in Keys(entry.fields) && "Type" in Keys(entry.fields)) ==> r == Ok(None)
    ensures r.Ok? && r.value.Some? ==>
      GetItem(entry, "URL") == Ok(JStr(r.value.value.url)) && GetItem(entry, "Type") == Ok(JStr(r.value.value.rel))
    ensures entry.JStr? && Contains(entry.s, "URL") && Contains(entry.s, "Type") ==> r.Err?
    ensures !(entry.JObj? || entry.JStr? || entry.JList?) ==> r.Err?
  {
    match In("URL", entry)
    case Err(_) => Err(DatasetFormattingError)
    case Ok(hasUrl) =>
      if !hasUrl then Ok(None)
      else
        match In("Type", entry)
        case Err(_) => Err(DatasetFormattingError)
        case Ok(hasType) =>
          if !hasType then Ok(None)
          else
            match (GetItem(entry, "URL"), GetItem(entry, "Type"))
            case (Ok(JStr(url)), Ok(JStr(rel))) => Ok(Some(Link(url, rel)))
            case _ => Err(DatasetFormattingError)
  }

  /** The links loop of `format_nasa_dataset` over a prefix of the entries: the links
      of the entries so far, or the first failure. */
  function NasaLinks(entries: seq<Json>): Result<seq<Link>, FormatError> {
    if entries == [] then Ok([])
    else AddLink(NasaLinks(entries[..|entries| - 1]), LinkOf(entries[|entries| - 1]))
  }

  /** One turn of the links loop. */
  function AddLink(links: Result<seq<Link>, FormatError>, next: Result<Option<Link>, FormatError>): Result<seq<Link>, FormatError> {
    match (links, next)
    case (Err(e), _) => Err(e)
    case (_, Err(e)) => Err(e)
    case (Ok(done), Ok(None)) => Ok(done)
    case (Ok(done), Ok(Some(link))) => Ok(done + [link])
  }

  lemma NasaLinksNext(entries: seq<Json>, i: nat)
    requires i < |entries|
    ensures NasaLinks(entries[..i + 1]) == AddLink(NasaLinks(entries[..i]), LinkOf(entries[i]))
  {
    assert entries[..i + 1][..i] == entries[..i];
    assert entries[..i + 1][i] == entries[i];
  }

  /** `result.get_umm("RelatedUrls") or []`, iterated. */
  function RelatedEntries(record: NasaRecord): Result<seq<Json>, FormatError> {
    var related := GetUmm(record, "RelatedUrls");
    if !Truthy(related) then Ok([])
    else
      match Iterate(related)
      case Ok(items) => Ok(items)
      case Err(_) => Err(DatasetFormattingError)
  }

  /** `str(result.get_umm("DOI")["DOI"])` when `"DOI" in result.get_umm("DOI")`, else
      the sentinel "Unavailable". */
  function Doi(record: NasaRecord): Result<string, FormatError> {
    var field := GetUmm(record, "DOI");
    match In("DOI", field)
    case Err(_) => Err(DatasetFormattingError)
    case Ok(present) =>
      if !present then Ok("Unavailable")
      else
        match GetItem(field, "DOI")
        case Ok(v) => Ok(PyJson.Str(v))
        case Err(_) => Err(DatasetFormattingError)
  }

  /** `format_nasa_dataset`: every failure becomes a `DatasetFormattingError`. The id,
      the title (EntryTitle, or "" when falsy) and the abstract must be str for the
      summary to be built. */
  function FormatNasa(record: NasaRecord): Result<DatasetSummary, FormatError> {
    match RelatedEntries(record)
    case Err(e) => Err(e)
    case Ok(entries) =>
      match NasaLinks(entries)
      case Err(e) => Err(e)
      case Ok(links) => Summarise(record, links)
  }

  /** The fields of the summary once the links are known. */
  function Summarise(record: NasaRecord, links: seq<Link>): Result<DatasetSummary, FormatError> {
    var title := if Truthy(GetUmm(record, "EntryTitle")) then GetUmm(record, "EntryTitle") else JStr("");
    match (Doi(record), GetItem(JObj(record.meta), "concept-id"), title, GetUmm(record, "Abstract"))
    case (Ok(doi), Ok(JStr(id)), JStr(t), JStr(text)) =>
      Ok(DatasetSummary(source := "NASA CMR", id := id, doi := Some(doi), title := t,
                        summary := Truncate(text, 500), links := links))
    case _ => Err(DatasetFormattingError)
  }

  /** `format_nasa_dataset`, with its links loop. */
  method FormatNasaDataset(record: NasaRecord) returns (r: Result<DatasetSummary, FormatError>)
    ensures r == FormatNasa(record)
  {
    var entries;
    match RelatedEntries(record) {
      case Err(e) => return Err(e);
      case Ok(items) => entries := items;
    }
    var links: seq<Link> := [];
    var i := 0;
    while i < |entries|
      invariant 0 <= i <= |entries|
      invariant NasaLinks(entries[..i]) == Ok(links)
    {
      NasaLinksNext(entries, i);
      match LinkOf(entries[i]) {
        case Err(e) =>
          NasaLinksFailFrom(entries, i + 1);
          return Err(e);
        case Ok(None) =>
        case Ok(Some(link)) => links := links + [link];
      }
      i := i + 1;
    }
    assert entries[..i] == entries;
    r := Summarise(record, links);
  }

  /** Once the loop fails it stays failed: a failing entry fails the whole record. */
  lemma {:induction false} NasaLinksFailFrom(entries: seq<Json>, n: nat)
    requires n <= |entries| && NasaLinks(entries[..n]).Err?
    ensures NasaLinks(entries) == NasaLinks(entries[..n])
    decreases |entries| - n
  {
    if n < |entries| {
      NasaLinksNext(entries, n);
      NasaLinksFailFrom(entries, n + 1);
    } else {
      assert entries[..n] == entries;
    }
  }

  /** The links a list of dict entries yields, defined independently of the loop: each
      entry with both keys gives one link, the others none, in entry order. */
  function DictLinks(entries: seq<Json>): seq<Link> {
    if entries == [] then []
    else
      match DictLink(entries[0])
      case Some(link) => [link] + DictLinks(entries[1..])
      case None => DictLinks(entries[1..])
  }

  /** The link of a dict entry with str values under both keys. */
  function DictLink(e: Json): Option<Link> {
    match (GetItem(e, "URL"), GetItem(e, "Type"))
    case (Ok(JStr(url)), Ok(JStr(rel))) => Some(Link(url, rel))
    case _ => None
  }

  lemma LinkOfDict(e: Json)
    requires WellFormedEntry(e)
    ensures LinkOf(e) == Ok(DictLink(e))
  {
  }

  /** Entries that are dicts whose URL and Type, when both present, are str. */
  predicate WellFormedEntries(entries: seq<Json>) {
    forall i :: 0 <= i < |entries| ==> WellFormedEntry(entries[i])
  }

  predicate WellFormedEntry(e: Json) {
    && e.JObj?
    && ("URL" in Keys(e.fields) && "Type" in Keys(e.fields) ==>
         GetItem(e, "URL").value.JStr? && GetItem(e, "Type").value.JStr?)
  }

  /** On well-formed entries the links loop succeeds and keeps exactly the entries that
      have both keys, in order. */
  lemma {:induction false} NasaLinksOfDicts(entries: seq<Json>)
    requires WellFormedEntries(entries)
    ensures NasaLinks(entries) == Ok(DictLinks(entries))
  {
    if entries != [] {
      var n := |entries| - 1;
      var init := entries[..n];
      var e := entries[n];
      WellFormedPrefix(entries, n);
      NasaLinksOfDicts(init);
      assert entries == init + [e];
      NasaLinksSnoc(init, e);
      LinkOfDict(e);
      AddDictLink(DictLinks(init), e);
      DictLinksSnoc(init, e);
    }
  }

  lemma NasaLinksSnoc(init: seq<Json>, e: Json)
    ensures NasaLinks(init + [e]) == AddLink(NasaLinks(init), LinkOf(e))
  {
    var s := init + [e];
    assert s[..|s| - 1] == init;
  }

  /** One turn of the links loop on a dict entry appends that entry's links. */
  lemma AddDictLink(done: seq<Link>, e: Json)
    ensures AddLink(Ok(done), Ok(DictLink(e))) == Ok(done + DictLinks([e]))
  {
    DictLinksSingle(e);
    if DictLink(e).None? {
      assert done + [] == done;
    }
  }

  lemma DictLinksSingle(e: Json)
    ensures DictLinks([e]) == if DictLink(e).Some? then [DictLink(e).value] else []
  {
    assert [e][1..] == [];
  }

  lemma WellFormedPrefix(entries: seq<Json>, n: nat)
    requires WellFormedEntries(entries) && n <= |entries|
    ensures WellFormedEntries(entries[..n])
  {
    assert forall i :: 0 <= i < n ==> entries[..n][i] == entries[i];
  }

  lemma {:induction false} DictLinksSnoc(entries: seq<Json>, e: Json)
    ensures DictLinks(entries + [e]) == DictLinks(entries) + DictLinks([e])
  {
    if entries != [] {
      assert (entries + [e])[1..] == entries[1..] + [e];
      DictLinksSnoc(entries[1..], e);
    } else {
      assert entries + [e] == [e];
    }
  }

  /** The DOI is the sentinel "Unavailable" when the record has no DOI field or its DOI
      dict has no "DOI" key, and the str DOI otherwise. */
  lemma DoiCases(record: NasaRecord)
    ensures "DOI" !in Keys(record.umm) ==> Doi(record) == Ok("Unavailable")
    ensures var field := GetUmm(record, "DOI");
      field.JObj? && "DOI" !in Keys(field.fields) ==> Doi(record) == Ok("Unavailable")
    ensures var field := GetUmm(record, "DOI");
      field.JObj? && GetItem(field, "DOI").Ok? && GetItem(field, "DOI").value.JStr? ==>
        Doi(record) == Ok(GetItem(field, "DOI").value.s)
  {
    if "DOI" !in Keys(record.umm) {
      assert GetUmm(record, "DOI") == JStr("");
      assert !Contains("", "DOI");
    }
  }

  /** What every NASA summary holds: source "NASA CMR", the concept-id, the EntryTitle
      (or "" when it is falsy), a DOI, a summary that is the first 500 characters of
      the abstract (all of it when shorter), and the links of the loop. */
  lemma NasaSummaryFields(record: NasaRecord)
    requires FormatNasa(record).Ok?
    ensures var d := FormatNasa(record).value;
      && d.source == "NASA CMR"
      && d.doi.Some? && Doi(record) == Ok(d.doi.value)
      && GetUmm(record, "Abstract").JStr?
      && |d.summary| <= 500 && |d.summary| <= |GetUmm(record, "Abstract").s|
      && d.summary == GetUmm(record, "Abstract").s[..|d.summary|]
      && (|GetUmm(record, "Abstract").s| <= 500 ==> d.summary == GetUmm(record, "Abstract").s)
      && (|GetUmm(record, "Abstract").s| >= 500 ==> |d.summary| == 500)
      && GetItem(JObj(record.meta), "concept-id") == Ok(JStr(d.id))
      && (Truthy(GetUmm(record, "EntryTitle")) ==> GetUmm(record, "EntryTitle") == JStr(d.title))
      && (!Truthy(GetUmm(record, "EntryTitle")) ==> d.title == "")
      && RelatedEntries(record).Ok? && NasaLinks(RelatedEntries(record).value) == Ok(d.links)
  {
  }

  /** A record whose RelatedUrls hold a non-dict entry that passes both key tests fails
      as a whole: no summary with the other links is produced. */
  lemma BadEntryFailsRecord(record: NasaRecord, k: nat)
    requires RelatedEntries(record).Ok? && k < |RelatedEntries(record).value|
    requires LinkOf(RelatedEntries(record).value[k]).Err?
    ensures FormatNasa(record).Err?
  {
    var entries := RelatedEntries(record).value;
    NasaLinksNext(entries, k);
    NasaLinksFailFrom(entries, k + 1);
    assert NasaLinks(entries).Err?;
  }

  // ---------------------------------------------------------------------------------
  // STAC collections

  /** A link of a pystac collection: its target and relation. */
  datatype StacLink = StacLink(target: string, rel: string)

  /** A pystac collection: the title is optional in STAC. */
  datatype StacCollection = StacCollection(id: string, title: Option<string>, description: string, links: seq<StacLink>)

  /** The links comprehension of `format_stac_dataset`: the links whose target is a valid
      URL, in order. */
  function ValidLinks(links: seq<StacLink>): seq<Link> {
    KeptLinks(links, url => IsValidUrl(url))
  }

  /** The links whose target passes `valid`, in order. */
  function KeptLinks(links: seq<StacLink>, valid: string -> bool): seq<Link> {
    if links == [] then []
    else
      var rest := KeptLinks(links[1..], valid);
      if valid(links[0].target) then [Link(links[0].target, links[0].rel)] + rest else rest
  }

  /** `format_stac_dataset`: pydantic refuses a collection without a title. */
  function FormatStac(c: StacCollection): Result<DatasetSummary, FormatError> {
    match c.title
    case None => Err(ValidationError)
    case Some(title) =>
      Ok(DatasetSummary(source := "STAC", id := c.id, title := title,
                        summary := Truncate(c.description, 500), links := ValidLinks(c.links)))
  }

  /** A STAC summary exists exactly when the collection has a title; it comes from
      "STAC", keeps the id and title, has no DOI, holds the first 500 characters at most
      of the description, and the links with a valid target. */
  lemma StacSummaryFields(c: StacCollection)
    ensures FormatStac(c).Err? <==> c.title.None?
    ensures FormatStac(c).Ok? ==>
      var d := FormatStac(c).value;
      && d.source == "STAC" && d.id == c.id && d.title == c.title.value
      && d.doi.None?
      && |d.summary| <= 500 && |d.summary| <= |c.description|
      && d.summary == c.description[..|d.summary|]
      && (|c.description| <= 500 ==> d.summary == c.description)
      && (|c.description| >= 500 ==> |d.summary| == 500)
      && d.links == ValidLinks(c.links)
  {
  }

  /** A link is kept exactly when some input link whose target passes the test gives
      it (for `ValidLinks`, the test is `is_valid_url`). */
  lemma {:induction false} KeptLinksMembers(links: seq<StacLink>, valid: string -> bool, l: Link)
    ensures l in KeptLinks(links, valid) <==>
      exists i :: 0 <= i < |links| && valid(links[i].target) && l == Link(links[i].target, links[i].rel)
  {
    if links != [] {
      var rest := links[1..];
      KeptLinksMembers(rest, valid, l);
      if exists i :: 0 <= i < |rest| && valid(rest[i].target) && l == Link(rest[i].target, rest[i].rel) {
        var i :| 0 <= i < |rest| && valid(rest[i].target) && l == Link(rest[i].target, rest[i].rel);
        assert links[i + 1] == rest[i];
      }
      if exists i :: 0 <= i < |links| && valid(links[i].target) && l == Link(links[i].target, links[i].rel) {
        var i :| 0 <= i < |links| && valid(links[i].target) && l == Link(links[i].target, links[i].rel);
        if i > 0 {
          assert rest[i - 1] == links[i];
        }
      }
    }
  }

  /** The filter keeps the order of the input: filtering a concatenation concatenates
      the filtered parts. */
  lemma {:induction false} KeptLinksAppend(a: seq<StacLink>, b: seq<StacLink>, valid: string -> bool)
    ensures KeptLinks(a + b, valid) == KeptLinks(a, valid) + KeptLinks(b, valid)
  {
    if a != [] {
      assert (a + b)[1..] == a[1..] + b;
      KeptLinksAppend(a[1..], b, valid);
    } else {
      assert a + b == b;
    }
  }

  // ---------------------------------------------------------------------------------
  // The catalog searches

  /** A value of the keyword arguments passed to a catalog search. */
  datatype Arg = Text(text: string) | Numbers(values: seq<real>) | Interval(start: string, end: string) | Count(count: Option<int>)

  type Params = map<string, Arg>

  /** `earthaccess.search_datasets(**params)`: the records found, or None when it raises. */
  type NasaBackend = Params -> Option<seq<NasaRecord>>

  /** `Client.open(url).collection_search(**params).collection_list()`: the collections
      found, or None when any of these calls raises. */
  type StacBackend = (string, Params) -> Option<seq<StacCollection>>

  /** `STAC_CATALOGS`. */
  const STAC_CATALOGS: map<string, string> := map[
    "nasa" := "https://cmr.earthdata.nasa.gov/stac",
    "earth_search" := "https://earth-search.aws.element84.com/v1",
    "planetary_computer" := "https://planetarycomputer.microsoft.com/api/stac/v1",
    "maap" := "https://stac.maap-project.org/"
  ]

  /** `STAC_CATALOGS["maap"]`, the default catalog. */
  const MAAP_CATALOG := "https://stac.maap-project.org/"

  lemma MaapIsDefault()
    ensures "maap" in STAC_CATALOGS && STAC_CATALOGS["maap"] == MAAP_CATALOG
  {
  }

  /** One turn of a formatting loop: the first failure is kept, a success appended. */
  function AddSummary(done: Result<seq<DatasetSummary>, FormatError>, next: Result<DatasetSummary, FormatError>)
    : Result<seq<DatasetSummary>, FormatError>
  {
    match (done, next)
    case (Err(e), _) => Err(e)
    case (_, Err(e)) => Err(e)
    case (Ok(summaries), Ok(d)) => Ok(summaries + [d])
  }

  /** The formatting loop of a search: formats the items in order, and the first
      failure ends the call. */
  function FormatAll<T>(items: seq<T>, format: T -> Result<DatasetSummary, FormatError>): Result<seq<DatasetSummary>, FormatError> {
    if items == [] then Ok([])
    else AddSummary(FormatAll(items[..|items| - 1], format), format(items[|items| - 1]))
  }

  lemma FormatAllNext<T>(items: seq<T>, format: T -> Result<DatasetSummary, FormatError>, i: nat)
    requires i < |items|
    ensures FormatAll(items[..i + 1], format) == AddSummary(FormatAll(items[..i], format), format(items[i]))
  {
    assert items[..i + 1][..i] == items[..i];
    assert items[..i + 1][i] == items[i];
  }

  lemma {:induction false} FormatAllFailFrom<T>(items: seq<T>, format: T -> Result<DatasetSummary, FormatError>, n: nat)
    requires n <= |items| && FormatAll(items[..n], format).Err?
    ensures FormatAll(items, format).Err?
    decreases |items| - n
  {
    if n < |items| {
      FormatAllNext(items, format, n);
      FormatAllFailFrom(items, format, n + 1);
    } else {
      assert items[..n] == items;
    }
  }

  /** The loop succeeds exactly when every item formats, and then returns one summary
      per item, in order. */
  lemma {:induction false} AllFormatted<T>(items: seq<T>, format: T -> Result<DatasetSummary, FormatError>)
    ensures FormatAll(items, format).Ok? <==> forall i :: 0 <= i < |items| ==> format(items[i]).Ok?
    ensures FormatAll(items, format).Ok? ==>
      && |FormatAll(items, format).value| == |items|
      && forall i :: 0 <= i < |items| ==> FormatAll(items, format).value[i] == format(items[i]).value
  {
    if items != [] {
      var n := |items| - 1;
      var init := items[..n];
      assert forall i :: 0 <= i < n ==> init[i] == items[i];
      AllFormatted(init, format);
      if FormatAll(items, format).Ok? {
        SnocIndices(FormatAll(init, format).value, format(items[n]).value);
      }
    }
  }

  lemma SnocIndices(done: seq<DatasetSummary>, d: DatasetSummary)
    ensures |done + [d]| == |done| + 1 && (done + [d])[|done|] == d
    ensures forall i :: 0 <= i < |done| ==> (done + [d])[i] == done[i]
  {
  }

  /** Every summary of a successful loop comes from the formatter's source. */
  lemma FormatAllSources<T>(items: seq<T>, format: T -> Result<DatasetSummary, FormatError>, source: string)
    requires forall i :: 0 <= i < |items| && format(items[i]).Ok? ==> format(items[i]).value.source == source
    ensures FormatAll(items, format).Ok? ==> forall d :: d in FormatAll(items, format).value ==> d.source == source
  {
    AllFormatted(items, format);
  }

  /** The keyword arguments `search_earthaccess_collections` passes. */
  function NasaParams(keyword: Option<string>, bbox: Option<seq<real>>, temporal: Option<(string, string)>,
                      count: Option<int>, kwargs: Params): Params
  {
    var p0: Params := map["keyword" := Text(if keyword.Some? && keyword.value != "" then keyword.value else "*")];
    var p1 := if bbox.Some? && bbox.value != [] then p0["bounding_box" := Arg.Numbers(bbox.value)] else p0;
    var p2 := if temporal.Some? then p1["temporal" := Interval(temporal.value.0, temporal.value.1)] else p1;
    (p2 + kwargs)["count" := Count(count)]
  }

  /** What the NASA parameters hold: `keyword` ("*" when the keyword is missing or
      empty), `bounding_box` only for a non-empty box, `temporal` only when given, the
      extra keyword arguments over these, and `count` over everything. */
  lemma NasaParamsContents(keyword: Option<string>, bbox: Option<seq<real>>, temporal: Option<(string, string)>,
                           count: Option<int>, kwargs: Params)
    ensures var r := NasaParams(keyword, bbox, temporal, count, kwargs);
      && r.Keys == {"keyword", "count"} + (if bbox.Some? && bbox.value != [] then {"bounding_box"} else {})
                   + (if temporal.Some? then {"temporal"} else {}) + kwargs.Keys
      && r["count"] == Count(count)
      && ("keyword" !in kwargs ==> r["keyword"] == Text(if keyword.Some? && keyword.value != "" then keyword.value else "*"))
      && ("bounding_box" !in kwargs && bbox.Some? && bbox.value != [] ==> r["bounding_box"] == Arg.Numbers(bbox.value))
      && ("temporal" !in kwargs && temporal.Some? ==> r["temporal"] == Interval(temporal.value.0, temporal.value.1))
      && (forall k :: k in kwargs && k != "count" ==> r[k] == kwargs[k])
  {
  }

  /** What a NASA search returns for its parameters: [] when the service raises or any
      one record fails to format. */
  function NasaSearch(backend: NasaBackend, params: Params): seq<DatasetSummary> {
    match backend(params)
    case None => []
    case Some(records) =>
      match FormatAll(records, FormatNasa)
      case Ok(summaries) => summaries
      case Err(_) => []
  }

  /** `search_earthaccess_collections`: fills the parameter dict step by step, calls the
      service and formats each record; any exception makes the whole call return []. */
  method SearchEarthaccess(backend: NasaBackend, keyword: Option<string>, bbox: Option<seq<real>>,
                           temporal: Option<(string, string)>, count: Option<int>, kwargs: Params)
    returns (collections: seq<DatasetSummary>)
    ensures collections == NasaSearch(backend, NasaParams(keyword, bbox, temporal, count, kwargs))
  {
    var params: Params := map[];
    if keyword.Some? && keyword.value != "" {
      params := params["keyword" := Text(keyword.value)];
    } else {
      params := params["keyword" := Text("*")];
    }
    if bbox.Some? && bbox.value != [] {
      params := params["bounding_box" := Arg.Numbers(bbox.value)];
    }
    if temporal.Some? {
      params := params["temporal" := Interval(temporal.value.0, temporal.value.1)];
    }
    params := params + kwargs;
    params := params["count" := Count(count)];
    assert params == NasaParams(keyword, bbox, temporal, count, kwargs);

    var found := backend(params);
    if found.None? {
      return [];
    }
    var records := found.value;
    collections := [];
    var i := 0;
    while i < |records|
      invariant 0 <= i <= |records|
      invariant FormatAll(records[..i], FormatNasa) == Ok(collections)
    {
      FormatAllNext(records, FormatNasa, i);
      var summary := FormatNasaDataset(records[i]);
      if summary.Err? {
        FormatAllFailFrom(records, FormatNasa, i + 1);
        return [];
      }
      collections := collections + [summary.value];
      i := i + 1;
    }
    assert records[..i] == records;
  }

  /** Failures are isolated per call, not per record: one record that fails to format
      empties the whole result of the call, and otherwise there is one summary per
      record, in order. */
  lemma NasaSearchResult(backend: NasaBackend, params: Params)
    requires backend(params).Some?
    ensures var records := backend(params).value;
      && ((exists k :: 0 <= k < |records| && FormatNasa(records[k]).Err?) ==> NasaSearch(backend, params) == [])
      && ((forall k :: 0 <= k < |records| ==> FormatNasa(records[k]).Ok?) ==>
            |NasaSearch(backend, params)| == |records|
            && forall k :: 0 <= k < |records| ==> NasaSearch(backend, params)[k] == FormatNasa(records[k]).value)
  {
    AllFormatted(backend(params).value, FormatNasa);
  }

  /** Every summary of a NASA call comes from "NASA CMR". */
  lemma NasaSearchSources(backend: NasaBackend, params: Params)
    ensures forall d :: d in NasaSearch(backend, params) ==> d.source == "NASA CMR"
  {
    if backend(params).Some? {
      var records := backend(params).value;
      forall i | 0 <= i < |records| && FormatNasa(records[i]).Ok? ensures FormatNasa(records[i]).value.source == "NASA CMR" {
        NasaSummaryFields(records[i]);
      }
      FormatAllSources(records, FormatNasa, "NASA CMR");
    }
  }

  /** How `search_stac_collections` receives its keywords: a list, or a str. */
  datatype Keywords = KeywordList(words: seq<string>) | KeywordText(text: string)

  /** `" or ".join(keywords.split())` for a str, `" or ".join(keywords)` for a list. */
  function KeywordQuery(keywords: Keywords): string {
    match keywords
    case KeywordText(text) => Join(" or ", Split(text))
    case KeywordList(words) => Join(" or ", words)
  }

  predicate KeywordsTruthy(keywords: Option<Keywords>) {
    match keywords
    case None => false
    case Some(KeywordList(words)) => words != []
    case Some(KeywordText(text)) => text != ""
  }

  /** The keyword arguments `search_stac_collections` passes. */
  function StacParams(keywords: Option<Keywords>, bbox: Option<seq<real>>, datetime: Option<string>, kwargs: Params): Params {
    var p0: Params := if KeywordsTruthy(keywords) then map["q" := Text(KeywordQuery(keywords.value))] else map[];
    var p1 := if bbox.Some? && bbox.value != [] then p0["bbox" := Arg.Numbers(bbox.value)] else p0;
    var p2 := if datetime.Some? && datetime.value != "" then p1["datetime" := Text(datetime.value)] else p1;
    p2 + kwargs
  }

  /** What the STAC parameters hold: `q` only when there are keywords, `bbox` only for
      a non-empty box, `datetime` only when not empty, and the extra keyword arguments
      over these. The `limit` argument is never passed on. */
  lemma StacParamsContents(keywords: Option<Keywords>, bbox: Option<seq<real>>, datetime: Option<string>, kwargs: Params)
    ensures var r := StacParams(keywords, bbox, datetime, kwargs);
      && r.Keys == (if KeywordsTruthy(keywords) then {"q"} else {}) + (if bbox.Some? && bbox.value != [] then {"bbox"} else {})
                   + (if datetime.Some? && datetime.value != "" then {"datetime"} else {}) + kwargs.Keys
      && ("limit" in r <==> "limit" in kwargs)
      && ("q" !in kwargs && KeywordsTruthy(keywords) ==> r["q"] == Text(KeywordQuery(keywords.value)))
      && ("bbox" !in kwargs && bbox.Some? && bbox.value != [] ==> r["bbox"] == Arg.Numbers(bbox.value))
      && ("datetime" !in kwargs && datetime.Some? && datetime.value != "" ==> r["datetime"] == Text(datetime.value))
      && (forall k :: k in kwargs ==> r[k] == kwargs[k])
  {
  }

  /** The catalog searched: the given URL, or the MAAP catalog when it is missing or empty. */
  function CatalogUrl(catalogUrl: Option<string>): string {
    if catalogUrl.Some? && catalogUrl.value != "" then catalogUrl.value else MAAP_CATALOG
  }

  function StacSearch(backend: StacBackend, url: string, params: Params): seq<DatasetSummary> {
    match backend(url, params)
    case None => []
    case Some(collections) => StacResults(collections)
  }

  function StacResults(collections: seq<StacCollection>): seq<DatasetSummary> {
    match FormatAll(collections, FormatStac)
    case Ok(summaries) => summaries
    case Err(_) => []
  }

  /** `search_stac_collections`: `limit` is accepted and never used. */
  method SearchStac(backend: StacBackend, catalogUrl: Option<string>, keywords: Option<Keywords>,
                    bbox: Option<seq<real>>, datetime: Option<string>, limit: int, kwargs: Params)
    returns (collections: seq<DatasetSummary>)
    ensures collections == StacSearch(backend, CatalogUrl(catalogUrl), StacParams(keywords, bbox, datetime, kwargs))
  {
    var url := if catalogUrl.Some? then catalogUrl.value else "";
    if url == "" {
      url := MAAP_CATALOG;
    }
    var params: Params := map[];
    if KeywordsTruthy(keywords) {
      params := params["q" := Text(KeywordQuery(keywords.value))];
    }
    if bbox.Some? && bbox.value != [] {
      params := params["bbox" := Arg.Numbers(bbox.value)];
    }
    if datetime.Some? && datetime.value != "" {
      params := params["datetime" := Text(datetime.value)];
    }
    params := params + kwargs;
    assert params == StacParams(keywords, bbox, datetime, kwargs);

    var found := backend(url, params);
    if found.None? {
      return [];
    }
    collections := FormatStacResults(found.value);
  }

  /** The loop of `search_stac_collections` over the collections found: [] when one of
      them fails to format. */
  method FormatStacResults(results: seq<StacCollection>) returns (collections: seq<DatasetSummary>)
    ensures collections == StacResults(results)
  {
    collections := [];
    var i := 0;
    while i < |results|
      invariant 0 <= i <= |results|
      invariant FormatAll(results[..i], FormatStac) == Ok(collections)
    {
      var summary := FormatStac(results[i]);
      FormatAllNext(results, FormatStac, i);
      assert FormatAll(results[..i + 1], FormatStac) == AddSummary(Ok(collections), summary);
      if summary.Err? {
        FormatAllFailFrom(results, FormatStac, i + 1);
        return [];
      }
      collections := collections + [summary.value];
      i := i + 1;
    }
    assert results[..i] == results;
  }

  /** A STAC call returns [] as soon as one collection has no title, and otherwise one
      summary per collection, in order. */
  lemma StacSearchResult(backend: StacBackend, url: string, params: Params)
    requires backend(url, params).Some?
    ensures var collections := backend(url, params).value;
      && ((exists k :: 0 <= k < |collections| && collections[k].title.None?) ==> StacSearch(backend, url, params) == [])
      && ((forall k :: 0 <= k < |collections| ==> collections[k].title.Some?) ==>
            |StacSearch(backend, url, params)| == |collections|
            && forall k :: 0 <= k < |collections| ==> StacSearch(backend, url, params)[k] == FormatStac(collections[k]).value)
  {
    AllFormatted(backend(url, params).value, FormatStac);
  }

  /** Every summary of a STAC call comes from "STAC". */
  lemma StacSearchSources(backend: StacBackend, url: string, params: Params)
    ensures forall d :: d in StacSearch(backend, url, params) ==> d.source == "STAC"
  {
    if backend(url, params).Some? {
      var collections := backend(url, params).value;
      forall i | 0 <= i < |collections| && FormatStac(collections[i]).Ok? ensures FormatStac(collections[i]).value.source == "STAC" {
        StacSummaryFields(collections[i]);
      }
      FormatAllSources(collections, FormatStac, "STAC");
    }
  }

  /** A single keyword is passed as the query unchanged. */
  lemma SingleKeywordQuery(keyword: string)
    ensures KeywordQuery(KeywordList([keyword])) == keyword
  {
  }

  /** A str of keywords is split and the words joined with " or ". */
  lemma KeywordTextQuery(words: seq<string>)
    requires AreWords(words)
    ensures KeywordQuery(KeywordText(Join(" ", words))) == Join(" or ", words)
  {
    SplitJoin(words);
  }

  // ---------------------------------------------------------------------------------
  // The dispatch

  /** The parameter dict as the extractor builds it, to the extent the dispatcher reads
      it: the query a str, the box a list of numbers or None, the range a dict. */
  predicate DispatchTyped(params: map<string, ParamValue>) {
    && ("query" in params ==> params["query"].Str?)
    && ("bbox" in params ==> params["bbox"].Numbers? || params["bbox"].Null?)
    && ("temporal" in params ==> params["temporal"].Range?)
  }

  /** `params.get("bbox")`, the box every backend call receives. */
  function BboxOf(params: map<string, ParamValue>): Option<seq<real>> {
    if "bbox" in params && params["bbox"].Numbers? then Some(params["bbox"].values) else None
  }

  /** `keywords`, or the words of the query when it is empty. */
  function KeywordsOf(params: map<string, ParamValue>, keywords: seq<string>): seq<string>
    requires DispatchTyped(params)
  {
    if keywords != [] then keywords
    else Split(if "query" in params then params["query"].text else "")
  }

  /** The temporal tuple for NASA and the `datetime` string for STAC. */
  function TemporalArgs(params: map<string, ParamValue>): (Option<(string, string)>, Option<string>)
    requires DispatchTyped(params)
  {
    if "temporal" !in params then (None, None)
    else
      var t := params["temporal"].temporal;
      if t.startDate.None? && t.endDate.None? then (None, None)    // an empty dict is falsy
      else if t.startDate.None? || t.startDate.value == "" then (None, None)
      else
        var start := t.startDate.value;
        var end := if t.endDate.Some? then t.endDate.value else start;
        (Some((start, end)), Some(if end != "" then start + "/" + end else start))
  }

  const NASA_SOURCES := {"nasa", "all"}
  const STAC_SOURCES := {"maap", "all", "stac", "esa"}

  /** The results of searching the keywords one after another. */
  function FanOut(keywords: seq<string>, search: string -> seq<DatasetSummary>): seq<DatasetSummary> {
    if keywords == [] then []
    else FanOut(keywords[..|keywords| - 1], search) + search(keywords[|keywords| - 1])
  }

  lemma FanOutSnoc(keywords: seq<string>, k: string, search: string -> seq<DatasetSummary>)
    ensures FanOut(keywords + [k], search) == FanOut(keywords, search) + search(k)
  {
    assert (keywords + [k])[..|keywords|] == keywords;
  }

  lemma FanOutNext(keywords: seq<string>, i: nat, search: string -> seq<DatasetSummary>)
    requires i < |keywords|
    ensures FanOut(keywords[..i + 1], search) == FanOut(keywords[..i], search) + search(keywords[i])
  {
    assert keywords[..i + 1] == keywords[..i] + [keywords[i]];
    FanOutSnoc(keywords[..i], keywords[i], search);
  }

  /** The NASA search of one keyword, as the dispatch makes it. */
  function NasaCall(backend: NasaBackend, bbox: Option<seq<real>>, temporal: Option<(string, string)>, count: int)
    : string -> seq<DatasetSummary>
  {
    k => NasaSearch(backend, NasaParams(Some(k), bbox, temporal, Some(count), map[]))
  }

  /** The STAC search of one keyword, as the dispatch makes it: alone, in the MAAP catalog. */
  function StacCall(backend: StacBackend, bbox: Option<seq<real>>, datetime: Option<string>): string -> seq<DatasetSummary> {
    k => StacSearch(backend, MAAP_CATALOG, StacParams(Some(KeywordList([k])), bbox, datetime, map[]))
  }

  lemma NasaCallIs(backend: NasaBackend, bbox: Option<seq<real>>, temporal: Option<(string, string)>, count: int, k: string)
    ensures NasaCall(backend, bbox, temporal, count)(k) == NasaSearch(backend, NasaParams(Some(k), bbox, temporal, Some(count), map[]))
  {
  }

  lemma StacCallIs(backend: StacBackend, bbox: Option<seq<real>>, datetime: Option<string>, k: string)
    ensures StacCall(backend, bbox, datetime)(k)
      == StacSearch(backend, CatalogUrl(Some(MAAP_CATALOG)), StacParams(Some(KeywordList([k])), bbox, datetime, map[]))
  {
  }

  /** What `dispatch_collection_query` returns: the NASA results, then the STAC results.
      The caller's box argument plays no part. */
  function Dispatch(nasa: NasaBackend, stac: StacBackend, params: map<string, ParamValue>, keywords: seq<string>,
                    maxResults: int, source: string): seq<DatasetSummary>
    requires DispatchTyped(params)
  {
    var ks := KeywordsOf(params, keywords);
    var args := TemporalArgs(params);
    (if source in NASA_SOURCES then FanOut(ks, NasaCall(nasa, BboxOf(params), args.0, maxResults)) else [])
      + (if source in STAC_SOURCES then FanOut(ks, StacCall(stac, BboxOf(params), args.1)) else [])
  }

  /** `dispatch_collection_query`. The `bbox` argument is overwritten by the box of
      `params` before any use. */
  method DispatchCollectionQuery(nasa: NasaBackend, stac: StacBackend, params: map<string, ParamValue>,
                                 bbox: Option<seq<real>>, keywords: seq<string>, maxResults: int, source: string)
    returns (results: seq<DatasetSummary>)
    requires DispatchTyped(params)
    ensures results == Dispatch(nasa, stac, params, keywords, maxResults, source)
  {
    var box := BboxOf(params);
    var words := keywords;
    if words == [] {
      words := Split(if "query" in params then params["query"].text else "");
    }
    var args := TemporalArgs(params);
    var nasaResults := SearchNasaKeywords(nasa, source, words, box, args.0, maxResults);
    var stacResults := SearchStacKeywords(stac, source, words, box, args.1, maxResults);
    results := nasaResults + stacResults;
  }

  /** The NASA part of `dispatch_collection_query`: one call per keyword, for the
      sources "nasa" and "all". */
  method SearchNasaKeywords(nasa: NasaBackend, source: string, words: seq<string>, box: Option<seq<real>>,
                            tuple: Option<(string, string)>, maxResults: int)
    returns (nasaResults: seq<DatasetSummary>)
    ensures nasaResults == if source in NASA_SOURCES then FanOut(words, NasaCall(nasa, box, tuple, maxResults)) else []
  {
    nasaResults := [];
    ghost var call := NasaCall(nasa, box, tuple, maxResults);
    if source in NASA_SOURCES {
      var i := 0;
      while i < |words|
        invariant 0 <= i <= |words|
        invariant nasaResults == FanOut(words[..i], call)
      {
        var found := SearchEarthaccess(nasa, Some(words[i]), box, tuple, Some(maxResults), map[]);
        NasaCallIs(nasa, box, tuple, maxResults, words[i]);
        FanOutNext(words, i, call);
        nasaResults := nasaResults + found;
        i := i + 1;
      }
      assert words[..i] == words;
    }
  }

  /** The STAC part of `dispatch_collection_query`: one MAAP call per keyword, for the
      sources "maap", "all", "stac" and "esa". */
  method SearchStacKeywords(stac: StacBackend, source: string, words: seq<string>, box: Option<seq<real>>,
                            datetime: Option<string>, maxResults: int)
    returns (stacResults: seq<DatasetSummary>)
    ensures stacResults == if source in STAC_SOURCES then FanOut(words, StacCall(stac, box, datetime)) else []
  {
    stacResults := [];
    ghost var call := StacCall(stac, box, datetime);
    if source in STAC_SOURCES {
      var i := 0;
      while i < |words|
        invariant 0 <= i <= |words|
        invariant stacResults == FanOut(words[..i], call)
      {
        var found := SearchStac(stac, Some(MAAP_CATALOG), Some(KeywordList([words[i]])), box, datetime, maxResults, map[]);
        StacCallIs(stac, box, datetime, words[i]);
        FanOutNext(words, i, call);
        stacResults := stacResults + found;
        i := i + 1;
      }
      assert words[..i] == words;
    }
  }

  /** Searching keywords one after another: the results of a concatenation of keyword
      lists are the concatenated results. */
  lemma {:induction false} FanOutAppend(a: seq<string>, b: seq<string>, search: string -> seq<DatasetSummary>)
    ensures FanOut(a + b, search) == FanOut(a, search) + FanOut(b, search)
  {
    if b == [] {
      assert a + b == a;
    } else {
      var n := |b| - 1;
      var init := b[..n];
      assert a + b == (a + init) + [b[n]];
      assert b == init + [b[n]];
      FanOutSnoc(a + init, b[n], search);
      FanOutSnoc(init, b[n], search);
      FanOutAppend(a, init, search);
    }
  }

  /** A keyword whose search returns nothing (because the service raised) adds
      nothing, and the other keywords' results are kept. */
  lemma FailedKeyword(a: seq<string>, k: string, b: seq<string>, search: string -> seq<DatasetSummary>)
    requires search(k) == []
    ensures FanOut(a + [k] + b, search) == FanOut(a, search) + FanOut(b, search)
  {
    FanOutAppend(a + [k], b, search);
    FanOutSnoc(a, k, search);
  }

  /** A keyword whose NASA call raises returns nothing; so does one whose STAC call raises. */
  lemma FailedCalls(nasa: NasaBackend, stac: StacBackend, k: string, bbox: Option<seq<real>>,
                    temporal: Option<(string, string)>, datetime: Option<string>, count: int)
    ensures nasa(NasaParams(Some(k), bbox, temporal, Some(count), map[])).None? ==> NasaCall(nasa, bbox, temporal, count)(k) == []
    ensures stac(MAAP_CATALOG, StacParams(Some(KeywordList([k])), bbox, datetime, map[])).None? ==> StacCall(stac, bbox, datetime)(k) == []
  {
  }

  /** Every result of a fan-out comes from a search of one of its keywords. */
  lemma {:induction false} FanOutSources(keywords: seq<string>, search: string -> seq<DatasetSummary>, source: string)
    requires forall k :: k in keywords ==> forall d :: d in search(k) ==> d.source == source
    ensures forall d :: d in FanOut(keywords, search) ==> d.source == source
  {
    if keywords != [] {
      var n := |keywords| - 1;
      assert forall k :: k in keywords[..n] ==> k in keywords;
      FanOutSources(keywords[..n], search, source);
      assert keywords[n] in keywords;
    }
  }

  /** The dispatch returns NASA summaries first and STAC summaries after them; "nasa"
      gives only NASA summaries, "maap", "stac" and "esa" only STAC ones, and an unknown
      source nothing. */
  lemma DispatchOrder(nasa: NasaBackend, stac: StacBackend, params: map<string, ParamValue>, keywords: seq<string>,
                      maxResults: int, source: string)
    requires DispatchTyped(params)
    ensures var r := Dispatch(nasa, stac, params, keywords, maxResults, source);
      && (forall d :: d in r ==> d.source == "NASA CMR" || d.source == "STAC")
      && (forall i, j :: 0 <= i < j < |r| && r[i].source == "STAC" ==> r[j].source == "STAC")
      && (source !in STAC_SOURCES ==> forall d :: d in r ==> d.source == "NASA CMR")
      && (source !in NASA_SOURCES ==> forall d :: d in r ==> d.source == "STAC")
      && (source !in NASA_SOURCES + STAC_SOURCES ==> r == [])
  {
    var ks := KeywordsOf(params, keywords);
    var args := TemporalArgs(params);
    var nasaCall := NasaCall(nasa, BboxOf(params), args.0, maxResults);
    var stacCall := StacCall(stac, BboxOf(params), args.1);
    forall k | k in ks ensures forall d :: d in nasaCall(k) ==> d.source == "NASA CMR" {
      NasaSearchSources(nasa, NasaParams(Some(k), BboxOf(params), args.0, Some(maxResults), map[]));
    }
    forall k | k in ks ensures forall d :: d in stacCall(k) ==> d.source == "STAC" {
      StacSearchSources(stac, MAAP_CATALOG, StacParams(Some(KeywordList([k])), BboxOf(params), args.1, map[]));
    }
    FanOutSources(ks, nasaCall, "NASA CMR");
    FanOutSources(ks, stacCall, "STAC");
    var a := if source in NASA_SOURCES then FanOut(ks, nasaCall) else [];
    var b := if source in STAC_SOURCES then FanOut(ks, stacCall) else [];
    NasaThenStac(a, b);
  }

  lemma NasaThenStac(a: seq<DatasetSummary>, b: seq<DatasetSummary>)
    requires forall d :: d in a ==> d.source == "NASA CMR"
    requires forall d :: d in b ==> d.source == "STAC"
    ensures forall d :: d in a + b ==> d.source == "NASA CMR" || d.source == "STAC"
    ensures forall i, j :: 0 <= i < j < |a + b| && (a + b)[i].source == "STAC" ==> (a + b)[j].source == "STAC"
  {
    var r := a + b;
    assert forall i :: 0 <= i < |a| ==> r[i] == a[i] && a[i] in a;
    assert forall i :: |a| <= i < |r| ==> r[i] == b[i - |a|] && b[i - |a|] in b;
  }

  /** Without a box in the parameters no call sends one, whatever box the caller passed. */
  lemma NoBboxSent(params: map<string, ParamValue>, keyword: string, tuple: Option<(string, string)>,
                   datetime: Option<string>, count: int)
    requires "bbox" !in params || params["bbox"].Null?
    ensures "bounding_box" !in NasaParams(Some(keyword), BboxOf(params), tuple, Some(count), map[])
    ensures "bbox" !in StacParams(Some(KeywordList([keyword])), BboxOf(params), datetime, map[])
  {
    NasaParamsContents(Some(keyword), BboxOf(params), tuple, Some(count), map[]);
    StacParamsContents(Some(KeywordList([keyword])), BboxOf(params), datetime, map[]);
  }

  /** Each keyword reaches NASA as the keyword itself, with the result count, and STAC
      as the query text. */
  lemma KeywordReachesBackends(keyword: string, bbox: Option<seq<real>>, tuple: Option<(string, string)>,
                               datetime: Option<string>, count: int)
    requires keyword != ""
    ensures NasaParams(Some(keyword), bbox, tuple, Some(count), map[])["keyword"] == Text(keyword)
    ensures NasaParams(Some(keyword), bbox, tuple, Some(count), map[])["count"] == Count(Some(count))
    ensures StacParams(Some(KeywordList([keyword])), bbox, datetime, map[])["q"] == Text(keyword)
  {
    NasaParamsContents(Some(keyword), bbox, tuple, Some(count), map[]);
    StacParamsContents(Some(KeywordList([keyword])), bbox, datetime, map[]);
  }

  /** With no keywords given, the words of the query are searched one by one. */
  lemma QueryWordsFallback(params: map<string, ParamValue>, words: seq<string>)
    requires DispatchTyped(params) && AreWords(words)
    requires "query" in params && params["query"] == Str(Join(" ", words))
    ensures KeywordsOf(params, []) == words
  {
    SplitJoin(words);
  }

  /** The time range reaches NASA as a (start, end) pair and STAC as "start/end"; a
      missing end repeats the start, an empty end leaves the start alone, and a range
      without a start (as "before ..." gives) reaches neither. */
  lemma TemporalArgsCases(params: map<string, ParamValue>)
    requires DispatchTyped(params) && "temporal" in params
    ensures var t := params["temporal"].temporal;
      && (t.startDate.Some? && t.startDate.value != "" && t.endDate.Some? && t.endDate.value != "" ==>
            TemporalArgs(params) == (Some((t.startDate.value, t.endDate.value)), Some(t.startDate.value + "/" + t.endDate.value)))
      && (t.startDate.Some? && t.startDate.value != "" && t.endDate.None? ==>
            TemporalArgs(params) == (Some((t.startDate.value, t.startDate.value)), Some(t.startDate.value + "/" + t.startDate.value)))
      && (t.startDate.Some? && t.startDate.value != "" && t.endDate == Some("") ==>
            TemporalArgs(params) == (Some((t.startDate.value, "")), Some(t.startDate.value)))
      && (t.startDate.None? || t.startDate.value == "" ==> TemporalArgs(params) == (None, None))
  {
  }
}
