# geodb: the point API, the isochrone import and the map styling rules

A Dafny model of the parts of geodb that carry exact logic. geodb is a small
GIS application that looks for locations for a stationery shop in Szeged.

- **`/geodb/points`** (`backend/app.py`) is modelled in `points_api.dfy`, module
  `PointsApi`.
  - The endpoint accepts an optional `(type, value)` filter only when it is in
    a fixed allow table, and answers anything else with HTTP 400.
  - It builds the query text and its parameter list by appending to them.
  - It turns every row into a GeoJSON Feature whose `properties` member
    (section 3.2 of RFC 7946) leaves out the NULL columns.
- **The walking-isochrone import job** (`backend/getSchoolRange.py`) is
  modelled in `isochrone_import.dfy`, module `IsochroneImport`.
  - The school list is cut into consecutive batches of at most two.
  - Each batch becomes one request, whose locations are `[lon, lat]` pairs.
  - Returned features are paired with the batch's schools by position, up to
    the shorter list.
  - Each pair is upserted into `school_isochrones`, a table with one row per
    `(school_id, range_seconds)`. It is modelled as a class that holds a map.
  - Accepted upserts are counted and the counts are summed.
  - A pause follows every batch except the last.
- **The map page's styling rules** (`frontend/script.js`) are modelled in
  `map_view.dfy`, module `MapView`.
  - The road colour and line weight depend on the `highway` tag.
  - The marker colour depends on the `shop` and `amenity` tags, and shop tags
    take precedence.
  - The popup labels have fallbacks.
  - The candidate-area filter keeps areas whose weight reaches the threshold.
  - The fill colour follows the weight band.
- `values.dfy`, module `Values`, holds `Option`, `Result` and the truthiness of
  an optional string. Python's `if type and value` and JavaScript's `a || b`
  agree on that truthiness.

Inputs from outside the program are parameters of the model:

- the rows the database returns;
- the isochrone service's answer to batch number `k` (`respond(k)`);
- whether the database accepts the upsert of a given polygon (`accepts`).

Every reference definition is a function with a name of its own (`Batches`,
`Upserted`, `ApplyUpserts`, `TotalInserted`, `LegendRow`, `FirstMatch`,
`Band`). The loops of the source are methods proved against those functions.

## Model

| member | source | states |
|---|---|---|
| `PointsApi.AllowedValues` | backend/app.py:90-95 | `allowed_values.get(type, [])`: no values for a type outside `shop`/`amenity`, a non-empty list for each of those two |
| `PointsApi.AllowTableMatchesWhereClauses` | backend/app.py:63-93 | both hard-coded WHERE conditions and the validator's allow table name the same columns, in the same order, with the same tags |
| `PointsApi.ValueDetail` | backend/app.py:96-97 | the message for a refused value starts by quoting that value and ends with the Python rendering of the type's allowed values |
| `PointsApi.CheckFilter` | backend/app.py:86-97 | every refusal has status 400; there is no filter exactly when `type` or `value` is missing or empty; an accepted filter is the request's own type and value, and they are in the allow table |
| `PointsApi.CheckFilterAcceptsExactlyTheTable` | backend/app.py:86-97 | both directions of acceptance: a request passes iff it names no complete filter or names one from the table; an unknown type gets the type message whatever the value; a known type with a wrong value gets the message listing that type's allowed values |
| `PointsApi.ExtendQuery` | backend/app.py:99-103 | the query keeps its base text and ends with ` LIMIT 1000`; without a filter only the limit is added and there are no parameters; with a filter ` AND {type} = %s` comes before the limit and the filter's value is the one parameter |
| `PointsApi.BuildPointsQuery` | backend/app.py:83-103 | fails exactly when the filter check fails, with the same error; every query starts with the fixed SELECTs and ends with ` LIMIT 1000`; with no filter the parameters stay empty and nothing else is added; with a filter exactly ` AND {type} = %s` is added and the one parameter is the value |
| `PointsApi.RawProperties` | backend/app.py:116-121 | the dictionary has exactly the keys id, name, amenity and shop; each entry is None exactly when its column is NULL, and otherwise holds the column's value |
| `PointsApi.DropNone` | backend/app.py:124 | a key survives exactly when its value is not None, with that value unwrapped |
| `PointsApi.RowFeature` | backend/app.py:115-129 | the Feature carries the row's geometry; its properties use only the keys id, name, amenity and shop; each key is present exactly when the column is not NULL, with the column's value |
| `PointsApi.FormatFeatures` | backend/app.py:113-131 | one Feature per row, in row order: feature i is row i's Feature |
| `IsochroneImport.LocationPairs` | backend/getSchoolRange.py:89 | one pair per location, in the same order, each `[lon, lat]` |
| `IsochroneImport.RequestFor` | backend/getSchoolRange.py:89-94 | the body has one location per school of the batch, location i being school i's `[lon, lat]`, and the single range asked for |
| `IsochroneImport.Batches` | backend/getSchoolRange.py:169-171 | the batches, concatenated in order, give back the school list |
| `IsochroneImport.BatchesCount` | backend/getSchoolRange.py:167-172 | the number of batches equals `(n + 2 - 1) // 2`, the total in the progress line |
| `IsochroneImport.BatchIsSlice` | backend/getSchoolRange.py:169-171 | batch k starts at offset 2k inside the list, holds between 1 and 2 schools, and is the slice `schools[2k:2k+2]` with the end clamped |
| `IsochroneImport.BatchesAreSlices` | backend/getSchoolRange.py:169-171 | batch k is the slice `schools[2k:2k+2]` (end clamped), it starts inside the list, and it holds between 1 and 2 schools |
| `IsochroneImport.Upserted` | backend/getSchoolRange.py:129-134 | after one upsert the key set is the old one plus `(school_id, range_seconds)`; that row has the new polygon; a repeated key keeps its stored school name; every other row is unchanged |
| `IsochroneImport.IsochroneTable.constructor` | backend/getSchoolRange.py:34-42 | creating `school_isochrones` in a database that does not have it yet gives a table with no rows |
| `IsochroneImport.IsochroneTable.Upsert` | backend/getSchoolRange.py:129-134 | the table's rows become `Upserted` of the old rows |
| `IsochroneImport.Paired` | backend/getSchoolRange.py:121-126 | feature i goes with school i; pairing stops at the shorter of the two lists |
| `IsochroneImport.AcceptedCount` | backend/getSchoolRange.py:119-144 | no more upserts are counted than there are pairs |
| `IsochroneImport.ApplyUpserts` | backend/getSchoolRange.py:121-142 | applying a batch's upserts in order never removes a row |
| `IsochroneImport.ApplyUpsertsStoresAccepted` | backend/getSchoolRange.py:121-142 | a pair whose upsert the database accepted, with no later accepted pair for the same school, leaves that school's row in the table holding its polygon |
| `IsochroneImport.ApplyUpsertsKeepsOtherRows` | backend/getSchoolRange.py:128-144 | a row whose key has no accepted upsert in the batch is neither added, removed nor changed, so a school whose upserts were all refused keeps its row and polygon |
| `IsochroneImport.ApplyUpsertsGrowth` | backend/getSchoolRange.py:129-142 | no row is ever removed, and the table grows by at most one row per accepted upsert |
| `IsochroneImport.InsertIsochrones` | backend/getSchoolRange.py:115-147 | the count is the number of accepted pairs, at most `min(#schools, #features)`; the table is the old one with those upserts applied in order; a missing response or one without `features` gives 0 and leaves the table unchanged |
| `IsochroneImport.TotalInsertedBound` | backend/getSchoolRange.py:172-179 | the summed count never exceeds the number of schools in the batches |
| `IsochroneImport.ProcessedAtMostSchools` | backend/getSchoolRange.py:167-187 | the reported `total_processed` is at most the number of schools |
| `IsochroneImport.RequestsFor` | backend/getSchoolRange.py:89-94 | one request per batch, request k made from batch k with range `[300]` |
| `IsochroneImport.BatchLoopStep` | backend/getSchoolRange.py:168-185 | one turn of the batch loop takes exactly the next batch; after the last batch no batch is left; the pause test `i + size < len(schools)` holds exactly when another batch follows |
| `IsochroneImport.StoreResponse` | backend/getSchoolRange.py:176-179 | a truthy response is stored and its count returned; a failed call inserts nothing and leaves the table unchanged |
| `IsochroneImport.PausesAfter` | backend/getSchoolRange.py:183-185 | the flag after batch k is set exactly when batch k+1 exists |
| `IsochroneImport.PausesAfterCount` | backend/getSchoolRange.py:183-185 | over a whole run of m >= 1 batches there are exactly m - 1 pauses |
| `IsochroneImport.ImportBatch` | backend/getSchoolRange.py:168-185 | one batch turn: the slice at offset i, its request, its response stored, its count, and the pause decision |
| `IsochroneImport.ImportAll` | backend/getSchoolRange.py:150-187 | the batches are `Batches(schools)`, there are `(n+1)//2` of them, and one request is made per batch; the total is the sum of per-batch counts and at most the number of schools; the table is the result of applying every batch's upserts in order; there are m - 1 pauses and none after the last batch; an empty list does nothing |
| `Values.OrElse` | frontend/script.js:111 | JavaScript's logical-or with a string fallback: the value itself when it is a non-empty string, otherwise the fallback, and never empty when the fallback is not |
| `MapView.LegendRow` | frontend/script.js:134-157 | the legend row returned matches the tag; when none is returned, no row matches |
| `MapView.RoadColor` | frontend/script.js:134-142 | a road gets a colour other than the grey default exactly when its `highway` is primary, secondary or tertiary |
| `MapView.RoadWeight` | frontend/script.js:149-157 | a road's line weight is always between 2 and 4 |
| `MapView.RoadHelpersFollowLegend` | frontend/script.js:134-157 | `getColorForRoad` and `getWeightForRoad` give a listed tag its legend row's colour and weight, and every other value (absent included) the defaults `#aaaaaa` and 2 |
| `MapView.RoadColorsDistinct` | frontend/script.js:137-141 | primary, secondary and tertiary get three distinct colours, each different from the default; weight never increases down the list |
| `MapView.StyleFor` | frontend/script.js:64-75 | only LineString and MultiLineString features get a line style; its colour and weight are those of the `highway` tag's legend row, or grey and 2 when the tag is not listed; the weight is in 2..4 |
| `MapView.FeatureColor` | frontend/script.js:164-176 | a feature gets the grey default exactly when neither its shop nor its amenity tag is one of the marked ones |
| `MapView.FirstMatch` | frontend/script.js:164-176 | the colour of the first rule that matches, or `#888888` when none does |
| `MapView.FeatureColorIsFirstMatch` | frontend/script.js:164-176 | `getColorForFeature` is the first-match reading of the rule list, with every shop rule before every amenity rule |
| `MapView.MarkedShopsAreTheRuleTags` | frontend/script.js:167-170 | the marked shop tags are exactly the tags the shop rules test |
| `MapView.MarkedAmenitiesAreTheRuleTags` | frontend/script.js:171-173 | the marked amenity tags are exactly the tags the amenity rules test |
| `MapView.FeatureColorPrecedence` | frontend/script.js:164-175 | a listed shop decides the colour whatever the amenity; college and university share a colour; the grey default is used exactly when neither tag is listed |
| `MapView.MarkerColorFor` | frontend/script.js:77-90 | only Point features get a marker, coloured by the rule list |
| `MapView.PopupFor` | frontend/script.js:96-122 | road popup exactly when `highway` is truthy, and its road type is that tag's value; the id is shown as is; the title is never empty and is the name when there is one; a POI's type is never empty |
| `MapView.PopupFallbacks` | frontend/script.js:100-117 | unnamed roads are 'Unnamed Road' and unnamed POIs 'Unnamed'; a POI's type falls back from shop to amenity to 'Unknown' |
| `MapView.VisibleAreas` | frontend/script.js:227-229 | an area is shown exactly when its weight is at least the threshold; nothing is added |
| `MapView.VisibleAreasHideLightOnes` | frontend/script.js:227-229 | at any threshold the filter hides exactly as many areas as weigh less than the threshold |
| `MapView.InitialFilterHidesOnlyLightAreas` | frontend/script.js:16 | at the initial threshold of 1 the filter hides exactly as many areas as weigh less than 1 |
| `MapView.InitialFilterShowsWeightedAreas` | frontend/script.js:16 | when every area weighs at least 1, the initial filter shows all of them, in their order |
| `MapView.VisibleAreasAppend` | frontend/script.js:227-229 | the filter keeps the original order: filtering a concatenation concatenates the filtered parts |
| `MapView.VisibleAreasCounts` | frontend/script.js:227-229 | each area is kept exactly as many times as it occurs when heavy enough, and not at all otherwise |
| `MapView.VisibleAreasStricter` | frontend/script.js:227-229 | raising the threshold only removes areas: filtering at a low then a high threshold is filtering at the high one |
| `MapView.Band` | frontend/script.js:238-245 | the band is one of four; band 0 exactly below 3, the top band exactly from 5 |
| `MapView.AreaFillColor` | frontend/script.js:238-245 | the fill colour of a weight is the colour of its band |
| `MapView.AreaFillColorByBand` | frontend/script.js:238-245 | the fill colour is the band's colour (≥5 purple, ≥4 blue, ≥3 teal, else orange), and the band never decreases as the weight grows |
| `MapView.BandColorsDistinct` | frontend/script.js:238-245 | the four bands are drawn in four different colours |

## Left out

- The server side of `/geodb/area` (the weighted candidate areas) and `/geodb/data` (the points of interest and roads). The page requests both (`frontend/script.js:39`, `frontend/script.js:201`), but `backend/app.py` defines only `/geodb/points` (`backend/app.py:38`) and no handler for either, so how their responses are computed is not part of this model. Only the page's handling of those responses is modelled.
- What the database does with the points query: `ST_Transform`, `ST_Centroid`, `UNION ALL`, operator precedence, and which rows come back. The query is modelled as text. The ` AND {type} = %s` suffix attaches only to the second SELECT's last OR term, and the model does not say it restricts the result.
- White space and SQL comments inside the points query are normalised in `BASE_QUERY`. The WHERE conditions are kept as structured data, `InList` terms, together with their rendering.
- `geojson.loads` and `json.dumps` of geometries: a geometry is its JSON text.
- The 500 answer when the database call raises (`backend/app.py:134-135`), database connections, cursors, commits and the DDL. The constructor models a database in which `school_isochrones` does not exist yet; `ImportAll` accepts a table holding any earlier rows, as `CREATE TABLE IF NOT EXISTS` keeps them.
- `created_at` and the serial `id` column of `school_isochrones`. They are not observable in the model.
- The HTTP call to the isochrone service, its 429 retry with a 60 s sleep, and its error handling. All of this is folded into the input `respond(k)`.
- `IsochroneImport.ApiResult`: an empty JSON object and an object without `features` are both modelled as `Json(None)`. Both insert nothing.
- The `KeyError` on a feature without `geometry` is not modelled. Such a response would stop the whole job.
- Why the database refuses an upsert is not modelled. Only the yes/no outcome is kept, as the input `accepts`.
- IsochroneImport.InsertIsochrones: `accepts` depends only on the polygon, so the same polygon gets the same verdict in every batch and position; a database that refuses one upsert and accepts an identical later one is not modelled.
- The duration of the `time.sleep` pauses, and all `print` output other than the counted values.
- `get_school_locations`: the school list is an input.
- FastAPI, CORS and uvicorn setup; `backend/install.py`, which only calls `pip`.
- Leaflet, the DOM and `fetch`: the layers, popup binding, `renderLayers`, `showArea` and `clearMap` with the page state they reset.
- `updateWeightFilter`'s `parseInt`: the threshold is an integer in the model, initially 1 (`DEFAULT_WEIGHT_FILTER`). Area weights are integers too.
- The area opacity `Math.min(0.2 + weight * 0.1, 0.8)`, which is floating point, and the fixed style constants (opacity, stroke colour, marker radius).
- `MapView.PopupFor`: the popup is modelled as its data (title, type, id), not as its HTML text.
