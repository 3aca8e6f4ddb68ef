/** The record shapes shared by the extractor and the dispatcher (midstac/models.py),
    and the temporal dictionary the extractor produces. */
module Models {
  import opened Wrappers

  /** A link of a dataset: its target and its relation (or type) tag. */
  datatype Link = Link(url: string, rel: string)

  /** A (latitude, longitude) pair, as Python floats. */
  datatype Coordinates = Coordinates(lat: real, lon: real)

  /** The temporal dictionary: each field is `None` when its key is absent. */
  datatype Temporal = Temporal(startDate: Option<string>, endDate: Option<string>)

  /** The normalised record both catalog paths produce; `doi` defaults to None and
      `links` to the empty list. */
  datatype DatasetSummary = DatasetSummary(
    source: string,
    id: string,
    title: string,
    summary: string,
    doi: Option<string> := None,
    links: seq<Link> := [])

  /** A value of the parameter dictionary `extract_parameters` builds: the query or the
      place name, the (lat, lon) pair, a list of numbers (the bounding box), the
      temporal dictionary, or None (what the geocoder gives when it finds no box). */
  datatype ParamValue = Str(text: string) | Pair(coordinates: Coordinates) | Numbers(values: seq<real>)
                      | Range(temporal: Temporal) | Null

  /** The dictionary fits the pydantic model `SpatiotemporalParameters`: only its field
      names (query, location, coordinates, bbox, temporal), each holding a value of that
      field's type; `query` is required, `bbox` may be None. */
  predicate WellTyped(params: map<string, ParamValue>) {
    && params.Keys <= {"query", "location", "coordinates", "bbox", "temporal"}
    && "query" in params && params["query"].Str?
    && ("location" in params ==> params["location"].Str?)
    && ("coordinates" in params ==> params["coordinates"].Pair?)
    && ("bbox" in params ==> params["bbox"].Numbers? || params["bbox"].Null?)
    && ("temporal" in params ==> params["temporal"].Range?)
  }
}
