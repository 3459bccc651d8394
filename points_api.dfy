/**
 * The point-listing endpoint `/geodb/points` of the GeoData API: it checks an
 * optional `(type, value)` filter against a fixed allow table, builds the
 * query text and its parameter list, and turns every database row into a
 * GeoJSON Feature whose `properties` object leaves out the columns that are
 * NULL (section 3.2 of RFC 7946 describes the `properties` member).
 *
 * The query is kept as text: what the database does with it (the UNION ALL,
 * ST_Transform, ST_Centroid) is not part of this model.
 */
module PointsApi {
  import opened Values

  // ---------------------------------------------------------------------
  // The allow table and the SQL text
  // ---------------------------------------------------------------------

  /** The filter types the endpoint accepts, in the order the source lists them. */
  const FILTER_TYPES: seq<string> := ["shop", "amenity"]
  const SHOP_VALUES: seq<string> := ["stationery", "supermarket", "department_store"]
  const AMENITY_VALUES: seq<string> := ["school", "college"]

  /** `allowed_values.get(type, [])`: the values accepted for a filter type. */
  function AllowedValues(filterType: string): (vs: seq<string>)
    ensures filterType !in FILTER_TYPES ==> vs == []
    ensures filterType in FILTER_TYPES ==> |vs| > 0
  {
    if filterType == "shop" then SHOP_VALUES
    else if filterType == "amenity" then AMENITY_VALUES
    else []
  }

  /** One `column IN ('tag', ...)` term of a WHERE condition; the terms are joined by OR. */
  datatype InList = InList(column: string, tags: seq<string>)

  /** The WHERE condition of the first SELECT (points), as written in the query. */
  const POINT_WHERE: seq<InList> :=
    [InList("shop", ["stationery", "supermarket", "department_store"]), InList("amenity", ["school", "college"])]

  /** The WHERE condition of the second SELECT (polygons), written out a second time in the query. */
  const POLYGON_WHERE: seq<InList> :=
    [InList("shop", ["stationery", "supermarket", "department_store"]), InList("amenity", ["school", "college"])]

  /** The SQL text of a WHERE condition. */
  function WhereText(terms: seq<InList>): string
  {
    if terms == [] then ""
    else
      var term := terms[0].column + " IN (" + QuotedItems(terms[0].tags) + ")";
      if |terms| == 1 then term else term + " OR " + WhereText(terms[1..])
  }

  /** The fixed query text before any suffix (white space and SQL comments normalised). */
  const BASE_QUERY: string :=
    "SELECT osm_id, name, ST_AsGeoJSON(ST_Transform(way, 4326)) as geom, amenity, shop, 'node' as osm_type"
    + " FROM planet_osm_point WHERE " + WhereText(POINT_WHERE)
    + " UNION ALL"
    + " SELECT osm_id, name, ST_AsGeoJSON(ST_Transform(ST_Centroid(way), 4326)) as geom, amenity, shop, 'way' as osm_type"
    + " FROM planet_osm_polygon WHERE " + WhereText(POLYGON_WHERE)

  const LIMIT_CLAUSE: string := " LIMIT 1000"

  const TYPE_DETAIL: string := "Type must be 'shop' or 'amenity'"

  /** The items of a list of strings, each in single quotes, separated by ", ". */
  function QuotedItems(xs: seq<string>): string
  {
    if xs == [] then ""
    else if |xs| == 1 then "'" + xs[0] + "'"
    else "'" + xs[0] + "', " + QuotedItems(xs[1..])
  }

  /** Python's `str()` of a list of strings without quotes in them: `['a', 'b']`. */
  function PyListRepr(xs: seq<string>): string
  {
    "[" + QuotedItems(xs) + "]"
  }

  /**
   * The validator's allow table and both hard-coded WHERE conditions name
   * the same columns, in the same order, with the same tags.
   */
  lemma AllowTableMatchesWhereClauses()
    ensures |POINT_WHERE| == |POLYGON_WHERE| == |FILTER_TYPES|
    ensures forall i :: 0 <= i < |FILTER_TYPES| ==>
              POINT_WHERE[i] == POLYGON_WHERE[i] == InList(FILTER_TYPES[i], AllowedValues(FILTER_TYPES[i]))
  {
  }

  // ---------------------------------------------------------------------
  // Validation of the optional filter
  // ---------------------------------------------------------------------

  datatype HttpError = HttpError(status: int, detail: string)

  /** An accepted filter: the column to compare and the value it must equal. */
  datatype Filter = Filter(column: string, value: string)

  /** The 400 detail for a value outside the allow list: it quotes the value first and ends with the allowed values. */
  function ValueDetail(filterType: string, value: string): (d: string)
    ensures StartsWith(d, "Value '" + value + "'")
    ensures EndsWith(d, PyListRepr(AllowedValues(filterType)))
  {
    var quoted := "Value '" + value + "'";
    var middle := " not allowed for type '" + filterType + "'. Allowed values: ";
    KeepsEnds(quoted, middle, PyListRepr(AllowedValues(filterType)));
    quoted + middle + PyListRepr(AllowedValues(filterType))
  }

  /**
   * The checks of `get_points` before the query runs: no filter unless both
   * parameters are non-empty; then a type outside the table is refused
   * first, and a value outside its type's list second, both with status 400.
   */
  function CheckFilter(filterType: Option<string>, value: Option<string>): (r: Result<Option<Filter>, HttpError>)
    ensures r.Failure? ==> r.error.status == 400
    ensures r == Success(None) <==> !(NonEmpty(filterType) && NonEmpty(value))
    ensures r.Success? && r.value.Some? ==>
              r.value.value == Filter(filterType.value, value.value)
              && r.value.value.column in FILTER_TYPES
              && r.value.value.value in AllowedValues(r.value.value.column)
  {
    if NonEmpty(filterType) && NonEmpty(value) then
      if filterType.value !in FILTER_TYPES then
        Failure(HttpError(400, TYPE_DETAIL))
      else if value.value !in AllowedValues(filterType.value) then
        Failure(HttpError(400, ValueDetail(filterType.value, value.value)))
      else
        Success(Some(Filter(filterType.value, value.value)))
    else
      Success(None)
  }

  /**
   * Both directions of the acceptance rule: a request is accepted exactly
   * when it names no complete filter, or names one from the allow table;
   * an unknown type is reported as such whatever the value.
   */
  lemma CheckFilterAcceptsExactlyTheTable(filterType: Option<string>, value: Option<string>)
    ensures CheckFilter(filterType, value).Success? <==>
              (!(NonEmpty(filterType) && NonEmpty(value))
               || (filterType.value in FILTER_TYPES && value.value in AllowedValues(filterType.value)))
    ensures NonEmpty(filterType) && NonEmpty(value) && filterType.value !in FILTER_TYPES ==>
              CheckFilter(filterType, value) == Failure(HttpError(400, TYPE_DETAIL))
    ensures NonEmpty(filterType) && NonEmpty(value) && filterType.value in FILTER_TYPES
            && value.value !in AllowedValues(filterType.value) ==>
              CheckFilter(filterType, value) == Failure(HttpError(400, ValueDetail(filterType.value, value.value)))
  {
  }

  // ---------------------------------------------------------------------
  // Query construction
  // ---------------------------------------------------------------------

  datatype Query = Query(text: string, params: seq<string>)

  predicate StartsWith(s: string, prefix: string)
  {
    |prefix| <= |s| && s[..|prefix|] == prefix
  }

  predicate EndsWith(s: string, suffix: string)
  {
    |suffix| <= |s| && s[|s| - |suffix|..] == suffix
  }

  /** Text put between a prefix and a suffix keeps both. */
  lemma KeepsEnds(prefix: string, middle: string, suffix: string)
    ensures StartsWith(prefix + middle + suffix, prefix)
    ensures EndsWith(prefix + middle + suffix, suffix)
  {
    var s := prefix + middle + suffix;
    assert s[..|prefix|] == prefix;
    assert s[|s| - |suffix|..] == suffix;
  }

  /**
   * The in-place extension of the query text: an accepted filter appends
   * ` AND {type} = %s` and its value to the parameter list, and every query
   * then gets the row limit.
   */
  method ExtendQuery(base: string, filter: Option<Filter>) returns (q: Query)
    ensures StartsWith(q.text, base) && EndsWith(q.text, LIMIT_CLAUSE)
    ensures filter.None? ==> q == Query(base + LIMIT_CLAUSE, [])
    ensures filter.Some? ==> q == Query(base + " AND " + filter.value.column + " = %s" + LIMIT_CLAUSE, [filter.value.value])
  {
    var query := base;
    var params: seq<string> := [];
    ghost var middle := "";
    if filter.Some? {
      query := query + " AND " + filter.value.column + " = %s";
      middle := " AND " + filter.value.column + " = %s";
      params := params + [filter.value.value];
    }
    assert query == base + middle;
    query := query + LIMIT_CLAUSE;
    KeepsEnds(base, middle, LIMIT_CLAUSE);
    q := Query(query, params);
  }

  /**
   * `get_points` up to the database call: the filter is checked, then the
   * query text is extended and the parameter list appended to.
   */
  method BuildPointsQuery(filterType: Option<string>, value: Option<string>) returns (r: Result<Query, HttpError>)
    ensures r.Failure? <==> CheckFilter(filterType, value).Failure?
    ensures r.Failure? ==> r.error == CheckFilter(filterType, value).error
    ensures r.Success? ==> StartsWith(r.value.text, BASE_QUERY) && EndsWith(r.value.text, LIMIT_CLAUSE)
    ensures r.Success? && !(NonEmpty(filterType) && NonEmpty(value)) ==>
              r.value == Query(BASE_QUERY + LIMIT_CLAUSE, [])
    ensures r.Success? && NonEmpty(filterType) && NonEmpty(value) ==>
              r.value == Query(BASE_QUERY + " AND " + filterType.value + " = %s" + LIMIT_CLAUSE, [value.value])
  {
    var checked := CheckFilter(filterType, value);
    if checked.Failure? {
      return Failure(checked.error);
    }
    var query := ExtendQuery(BASE_QUERY, checked.value);
    r := Success(query);
  }

  // ---------------------------------------------------------------------
  // Rows to GeoJSON Features
  // ---------------------------------------------------------------------

  /** A JSON value that a property can hold. */
  datatype PropValue = IntValue(i: int) | TextValue(s: string)

  /** One result row; any column may be NULL. `geom` is the GeoJSON text of the geometry. */
  datatype Row = Row(osmId: Option<int>, name: Option<string>, geom: string,
                     amenity: Option<string>, shop: Option<string>)

  datatype Feature = Feature(geometry: string, properties: map<string, PropValue>)

  const PROPERTY_KEYS: set<string> := {"id", "name", "amenity", "shop"}

  function TextOf(s: Option<string>): Option<PropValue>
  {
    if s.Some? then Some(TextValue(s.value)) else None
  }

  /** The properties dictionary of one row before NULL columns are removed. */
  function RawProperties(row: Row): (r: map<string, Option<PropValue>>)
    ensures r.Keys == PROPERTY_KEYS
    ensures r["id"].None? <==> row.osmId.None?
    ensures row.osmId.Some? ==> r["id"] == Some(IntValue(row.osmId.value))
    ensures r["name"].None? <==> row.name.None?
    ensures row.name.Some? ==> r["name"] == Some(TextValue(row.name.value))
    ensures r["amenity"].None? <==> row.amenity.None?
    ensures row.amenity.Some? ==> r["amenity"] == Some(TextValue(row.amenity.value))
    ensures r["shop"].None? <==> row.shop.None?
    ensures row.shop.Some? ==> r["shop"] == Some(TextValue(row.shop.value))
  {
    map["id" := if row.osmId.Some? then Some(IntValue(row.osmId.value)) else None,
        "name" := TextOf(row.name),
        "amenity" := TextOf(row.amenity),
        "shop" := TextOf(row.shop)]
  }

  /** The dictionary comprehension that keeps the entries whose value is not None. */
  function DropNone(m: map<string, Option<PropValue>>): (r: map<string, PropValue>)
    ensures forall k :: k in r <==> k in m && m[k].Some?
    ensures forall k :: k in r ==> m[k] == Some(r[k])
  {
    map k | k in m && m[k].Some? :: m[k].value
  }

  /** `key` is present in `props` exactly when `raw` holds a value, and then with that value. */
  predicate KeptAs(props: map<string, PropValue>, key: string, raw: Option<PropValue>)
  {
    (key in props <==> raw.Some?) && (key in props ==> props[key] == raw.value)
  }

  /** One row as a Feature: its geometry and its non-NULL columns. */
  function RowFeature(row: Row): (f: Feature)
    ensures f.geometry == row.geom
    ensures f.properties.Keys <= PROPERTY_KEYS
    ensures KeptAs(f.properties, "id", if row.osmId.Some? then Some(IntValue(row.osmId.value)) else None)
    ensures KeptAs(f.properties, "name", TextOf(row.name))
    ensures KeptAs(f.properties, "amenity", TextOf(row.amenity))
    ensures KeptAs(f.properties, "shop", TextOf(row.shop))
  {
    Feature(row.geom, DropNone(RawProperties(row)))
  }

  /** The loop that appends one Feature per row, in row order. */
  method FormatFeatures(rows: seq<Row>) returns (features: seq<Feature>)
    ensures |features| == |rows|
    ensures forall i :: 0 <= i < |rows| ==> features[i] == RowFeature(rows[i])
  {
    features := [];
    var i := 0;
    while i < |rows|
      invariant 0 <= i <= |rows|
      invariant |features| == i
      invariant forall j :: 0 <= j < i ==> features[j] == RowFeature(rows[j])
    {
      features := features + [RowFeature(rows[i])];
      i := i + 1;
    }
  }
}
