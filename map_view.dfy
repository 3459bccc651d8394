/**
 * The map page's styling rules: the colour and thickness of a road by its
 * `highway` tag, the marker colour of a point of interest by its `shop` and
 * `amenity` tags, the popup labels and their fallbacks, and, for the
 * weighted candidate areas, the keep-if-heavy-enough filter and the
 * fill-colour bands.
 *
 * Leaflet, the DOM and `fetch` are not part of the model: a feature is its
 * geometry type and its `properties`, and what Leaflet is handed (a style,
 * a marker colour, a popup, a filter verdict) is the result of a function.
 */
module MapView {
  import opened Values

  /** The `properties` of a road or point feature; every member may be absent. */
  datatype Properties = Properties(id: Option<int>, name: Option<string>, highway: Option<string>,
                                   shop: Option<string>, amenity: Option<string>)

  /** JavaScript `prop === tag`: an absent property equals no tag. */
  predicate Is(prop: Option<string>, tag: string)
  {
    prop == Some(tag)
  }

  // ---------------------------------------------------------------------
  // Roads
  // ---------------------------------------------------------------------

  const DEFAULT_ROAD_COLOR: string := "#aaaaaa"
  const DEFAULT_ROAD_WEIGHT: int := 2

  /** One row of the road legend: a `highway` tag, its line colour and its line weight. */
  datatype RoadStyle = RoadStyle(highway: string, color: string, weight: int)

  /** The road legend, from the most to the least important road class. */
  const ROAD_STYLES: seq<RoadStyle> := [
    RoadStyle("primary", "#ff0000", 4),
    RoadStyle("secondary", "#ff4400", 3),
    RoadStyle("tertiary", "#ff6600", 2)
  ]

  /** The first legend row for a tag, if any: the reference for both road helpers. */
  function LegendRow(rows: seq<RoadStyle>, highway: Option<string>): (r: Option<RoadStyle>)
    ensures r.Some? ==> r.value in rows && Is(highway, r.value.highway)
    ensures r.None? ==> forall i :: 0 <= i < |rows| ==> !Is(highway, rows[i].highway)
  {
    if rows == [] then None
    else if Is(highway, rows[0].highway) then Some(rows[0])
    else LegendRow(rows[1..], highway)
  }

  /** `getColorForRoad`: only the three listed road classes leave the default grey. */
  function RoadColor(highway: Option<string>): (c: string)
    ensures c != DEFAULT_ROAD_COLOR <==> highway.Some? && highway.value in {"primary", "secondary", "tertiary"}
  {
    if Is(highway, "primary") then "#ff0000"
    else if Is(highway, "secondary") then "#ff4400"
    else if Is(highway, "tertiary") then "#ff6600"
    else DEFAULT_ROAD_COLOR
  }

  /** `getWeightForRoad`. */
  function RoadWeight(highway: Option<string>): (w: int)
    ensures 2 <= w <= 4
  {
    if Is(highway, "primary") then 4
    else if Is(highway, "secondary") then 3
    else if Is(highway, "tertiary") then 2
    else DEFAULT_ROAD_WEIGHT
  }

  /** Both road helpers read the same legend: a listed tag gets its row, any other value the defaults. */
  lemma RoadHelpersFollowLegend(highway: Option<string>)
    ensures LegendRow(ROAD_STYLES, highway).Some? ==>
              RoadColor(highway) == LegendRow(ROAD_STYLES, highway).value.color
              && RoadWeight(highway) == LegendRow(ROAD_STYLES, highway).value.weight
    ensures LegendRow(ROAD_STYLES, highway).None? ==>
              RoadColor(highway) == DEFAULT_ROAD_COLOR && RoadWeight(highway) == DEFAULT_ROAD_WEIGHT
  {
  }

  /**
   * The three listed road classes are drawn in three colours that differ
   * from each other and from the default, and the line weight never grows
   * as the class gets less important.
   */
  lemma RoadColorsDistinct()
    ensures forall i, j :: 0 <= i < j < |ROAD_STYLES| ==>
              RoadColor(Some(ROAD_STYLES[i].highway)) != RoadColor(Some(ROAD_STYLES[j].highway))
              && RoadWeight(Some(ROAD_STYLES[i].highway)) >= RoadWeight(Some(ROAD_STYLES[j].highway))
    ensures forall i :: 0 <= i < |ROAD_STYLES| ==> RoadColor(Some(ROAD_STYLES[i].highway)) != DEFAULT_ROAD_COLOR
  {
  }

  /** The style a line feature gets; other geometry types get none. */
  datatype LineStyle = LineStyle(weight: int, color: string)

  /** The `style` callback of the feature layer. */
  function StyleFor(geometryType: string, p: Properties): (s: Option<LineStyle>)
    ensures s.Some? <==> geometryType in {"LineString", "MultiLineString"}
    ensures s.Some? ==> s.value == LineStyle(RoadWeight(p.highway), RoadColor(p.highway))
    ensures s.Some? ==> 2 <= s.value.weight <= 4
    ensures s.Some? && LegendRow(ROAD_STYLES, p.highway).Some? ==>
              s.value == LineStyle(LegendRow(ROAD_STYLES, p.highway).value.weight, LegendRow(ROAD_STYLES, p.highway).value.color)
    ensures s.Some? && LegendRow(ROAD_STYLES, p.highway).None? ==>
              s.value == LineStyle(DEFAULT_ROAD_WEIGHT, DEFAULT_ROAD_COLOR)
  {
    RoadHelpersFollowLegend(p.highway);
    if geometryType == "LineString" || geometryType == "MultiLineString" then
      Some(LineStyle(RoadWeight(p.highway), RoadColor(p.highway)))
    else
      None
  }

  // ---------------------------------------------------------------------
  // Points of interest
  // ---------------------------------------------------------------------

  const DEFAULT_FEATURE_COLOR: string := "#888888"

  /** Which property a marker rule tests. */
  datatype Column = ShopColumn | AmenityColumn

  /** One marker rule: a feature whose `column` equals `tag` is drawn in `color`. */
  datatype MarkerRule = MarkerRule(column: Column, tag: string, color: string)

  /** The marker rules in the order they are tried: every shop rule before every amenity rule. */
  const MARKER_RULES: seq<MarkerRule> := [
    MarkerRule(ShopColumn, "supermarket", "#3388ff"),
    MarkerRule(ShopColumn, "stationery", "#33cc33"),
    MarkerRule(ShopColumn, "books", "#ff9900"),
    MarkerRule(ShopColumn, "department_store", "#9933ff"),
    MarkerRule(AmenityColumn, "school", "#ff3333"),
    MarkerRule(AmenityColumn, "college", "#ff66b2"),
    MarkerRule(AmenityColumn, "university", "#ff66b2")
  ]

  predicate Matches(rule: MarkerRule, p: Properties)
  {
    match rule.column
    case ShopColumn => Is(p.shop, rule.tag)
    case AmenityColumn => Is(p.amenity, rule.tag)
  }

  /** The colour of the first rule that matches, or the default: the reference for `getColorForFeature`. */
  function FirstMatch(rules: seq<MarkerRule>, p: Properties): (c: string)
    ensures (forall i :: 0 <= i < |rules| ==> !Matches(rules[i], p)) ==> c == DEFAULT_FEATURE_COLOR
    ensures forall i :: (0 <= i < |rules| && Matches(rules[i], p)
                         && (forall j :: 0 <= j < i ==> !Matches(rules[j], p))) ==> c == rules[i].color
  {
    if rules == [] then DEFAULT_FEATURE_COLOR
    else if Matches(rules[0], p) then rules[0].color
    else FirstMatch(rules[1..], p)
  }

  /** The shop tags of `MARKER_RULES`, as a set; `MarkedShopsAreTheRuleTags` proves the two agree. */
  const MARKED_SHOPS: set<string> := {"supermarket", "stationery", "books", "department_store"}
  /** The amenity tags of `MARKER_RULES`, as a set; `MarkedAmenitiesAreTheRuleTags` proves the two agree. */
  const MARKED_AMENITIES: set<string> := {"school", "college", "university"}

  /** The tags of the rules that test `column`. */
  function RuleTags(rules: seq<MarkerRule>, column: Column): (tags: set<string>)
    ensures forall t :: t in tags <==> exists i :: 0 <= i < |rules| && rules[i].column == column && rules[i].tag == t
  {
    set i | 0 <= i < |rules| && rules[i].column == column :: rules[i].tag
  }

  /** The marked shop tags are exactly the tags the shop rules test. */
  lemma MarkedShopsAreTheRuleTags()
    ensures RuleTags(MARKER_RULES, ShopColumn) == MARKED_SHOPS
  {
    var rs := MARKER_RULES;
    forall t | t in MARKED_SHOPS ensures t in RuleTags(rs, ShopColumn) {
      var i := if t == "supermarket" then 0 else if t == "stationery" then 1 else if t == "books" then 2 else 3;
      assert rs[i].column == ShopColumn && rs[i].tag == t;
    }
    forall t | t in RuleTags(rs, ShopColumn) ensures t in MARKED_SHOPS {
      var i :| 0 <= i < |rs| && rs[i].column == ShopColumn && rs[i].tag == t;
      assert i < 4;
    }
  }

  /** The marked amenity tags are exactly the tags the amenity rules test. */
  lemma MarkedAmenitiesAreTheRuleTags()
    ensures RuleTags(MARKER_RULES, AmenityColumn) == MARKED_AMENITIES
  {
    var rs := MARKER_RULES;
    forall t | t in MARKED_AMENITIES ensures t in RuleTags(rs, AmenityColumn) {
      var i := if t == "school" then 4 else if t == "college" then 5 else 6;
      assert rs[i].column == AmenityColumn && rs[i].tag == t;
    }
    forall t | t in RuleTags(rs, AmenityColumn) ensures t in MARKED_AMENITIES {
      var i :| 0 <= i < |rs| && rs[i].column == AmenityColumn && rs[i].tag == t;
      assert 4 <= i;
    }
  }

  /** `getColorForFeature`: the grey default exactly when neither tag is one of the listed ones. */
  function FeatureColor(p: Properties): (c: string)
    ensures c == DEFAULT_FEATURE_COLOR <==>
              !(p.shop.Some? && p.shop.value in MARKED_SHOPS) && !(p.amenity.Some? && p.amenity.value in MARKED_AMENITIES)
  {
    if Is(p.shop, "supermarket") then "#3388ff"
    else if Is(p.shop, "stationery") then "#33cc33"
    else if Is(p.shop, "books") then "#ff9900"
    else if Is(p.shop, "department_store") then "#9933ff"
    else if Is(p.amenity, "school") then "#ff3333"
    else if Is(p.amenity, "college") then "#ff66b2"
    else if Is(p.amenity, "university") then "#ff66b2"
    else DEFAULT_FEATURE_COLOR
  }

  /** The if-chain is the first-match reading of the rule list. */
  lemma FeatureColorIsFirstMatch(p: Properties)
    ensures FeatureColor(p) == FirstMatch(MARKER_RULES, p)
  {
    var rs := MARKER_RULES;
    var k := if Is(p.shop, "supermarket") then 0
             else if Is(p.shop, "stationery") then 1
             else if Is(p.shop, "books") then 2
             else if Is(p.shop, "department_store") then 3
             else if Is(p.amenity, "school") then 4
             else if Is(p.amenity, "college") then 5
             else if Is(p.amenity, "university") then 6
             else 7;
    assert forall j :: 0 <= j < k ==> !Matches(rs[j], p);
    if k < 7 {
      assert Matches(rs[k], p);
    }
  }

  /**
   * Shop tags take precedence: a listed shop decides the colour whatever
   * the amenity is; college and university share one colour; and the
   * default colour is used exactly when neither tag is listed.
   */
  lemma FeatureColorPrecedence(p: Properties, amenity: Option<string>)
    ensures p.shop.Some? && p.shop.value in MARKED_SHOPS ==> FeatureColor(p.(amenity := amenity)) == FeatureColor(p)
    ensures FeatureColor(p.(shop := None, amenity := Some("college")))
            == FeatureColor(p.(shop := None, amenity := Some("university")))
    ensures FeatureColor(p) == DEFAULT_FEATURE_COLOR <==>
              !(p.shop.Some? && p.shop.value in MARKED_SHOPS) && !(p.amenity.Some? && p.amenity.value in MARKED_AMENITIES)
  {
  }

  /** The `pointToLayer` callback: a Point gets a circle marker in its feature colour, anything else nothing. */
  function MarkerColorFor(geometryType: string, p: Properties): (c: Option<string>)
    ensures c.Some? <==> geometryType == "Point"
    ensures c.Some? ==> c.value == FirstMatch(MARKER_RULES, p)
  {
    FeatureColorIsFirstMatch(p);
    if geometryType == "Point" then Some(FeatureColor(p)) else None
  }

  // ---------------------------------------------------------------------
  // Popups
  // ---------------------------------------------------------------------

  /** The text a feature's popup shows: a road's or a point's. */
  datatype Popup =
    | RoadPopup(title: string, roadType: string, id: Option<int>)
    | PoiPopup(title: string, kind: string, id: Option<int>)

  /** The `onEachFeature` callback of the feature layer. */
  function PopupFor(p: Properties): (pp: Popup)
    ensures pp.RoadPopup? <==> NonEmpty(p.highway)
    ensures pp.RoadPopup? ==> pp.roadType == p.highway.value
    ensures pp.id == p.id
    ensures pp.title != ""
    ensures NonEmpty(p.name) ==> pp.title == p.name.value
    ensures pp.PoiPopup? ==> pp.kind != ""
  {
    if NonEmpty(p.highway) then
      RoadPopup(OrElse(p.name, "Unnamed Road"), p.highway.value, p.id)
    else
      PoiPopup(OrElse(p.name, "Unnamed"), OrElse(p.shop, OrElse(p.amenity, "Unknown")), p.id)
  }

  /**
   * The fallbacks: an unnamed road is titled 'Unnamed Road' and an unnamed
   * point 'Unnamed'; a point's type is its shop tag, else its amenity tag,
   * else 'Unknown'.
   */
  lemma PopupFallbacks(p: Properties)
    ensures !NonEmpty(p.name) ==> PopupFor(p).title == (if NonEmpty(p.highway) then "Unnamed Road" else "Unnamed")
    ensures !NonEmpty(p.highway) ==>
              PopupFor(p).kind == (if NonEmpty(p.shop) then p.shop.value
                                   else if NonEmpty(p.amenity) then p.amenity.value
                                   else "Unknown")
  {
  }

  // ---------------------------------------------------------------------
  // Candidate areas
  // ---------------------------------------------------------------------

  /** The threshold before the slider is moved. */
  const DEFAULT_WEIGHT_FILTER: int := 1

  /** A candidate area: its geometry (as GeoJSON text) and its overlap weight. */
  datatype Area = Area(geometry: string, weight: int)

  /** How many areas weigh less than `threshold`. */
  function LightCount(areas: seq<Area>, threshold: int): nat
  {
    if areas == [] then 0
    else LightCount(areas[..|areas| - 1], threshold) + (if areas[|areas| - 1].weight < threshold then 1 else 0)
  }

  /** The areas the `filter` callback lets through, in their original order. */
  function VisibleAreas(areas: seq<Area>, threshold: int): (r: seq<Area>)
    ensures forall a :: a in r <==> a in areas && a.weight >= threshold
    ensures |r| <= |areas|
  {
    if areas == [] then []
    else
      var rest := VisibleAreas(areas[..|areas| - 1], threshold);
      var last := areas[|areas| - 1];
      if last.weight >= threshold then rest + [last] else rest
  }

  /** At any threshold the filter hides exactly as many areas as weigh less than it. */
  lemma {:induction false} VisibleAreasHideLightOnes(areas: seq<Area>, threshold: int)
    ensures |VisibleAreas(areas, threshold)| == |areas| - LightCount(areas, threshold)
  {
    if areas != [] {
      VisibleAreasHideLightOnes(areas[..|areas| - 1], threshold);
    }
  }

  /**
   * Before the slider is moved the threshold is 1: exactly the areas of
   * weight 0 or less are hidden.
   */
  lemma InitialFilterHidesOnlyLightAreas(areas: seq<Area>)
    ensures |VisibleAreas(areas, DEFAULT_WEIGHT_FILTER)| == |areas| - LightCount(areas, DEFAULT_WEIGHT_FILTER)
  {
    VisibleAreasHideLightOnes(areas, DEFAULT_WEIGHT_FILTER);
  }

  /** ... so when every area weighs at least 1, the initial filter shows them all, in order. */
  lemma {:induction false} InitialFilterShowsWeightedAreas(areas: seq<Area>)
    requires forall i :: 0 <= i < |areas| ==> areas[i].weight >= 1
    ensures VisibleAreas(areas, DEFAULT_WEIGHT_FILTER) == areas
  {
    if areas != [] {
      var init := areas[..|areas| - 1];
      assert forall i :: 0 <= i < |init| ==> init[i] == areas[i];
      InitialFilterShowsWeightedAreas(init);
      assert init + [areas[|areas| - 1]] == areas;
    }
  }

  /** Filtering a concatenation filters each part and keeps them in order. */
  lemma {:induction false} VisibleAreasAppend(xs: seq<Area>, ys: seq<Area>, threshold: int)
    ensures VisibleAreas(xs + ys, threshold) == VisibleAreas(xs, threshold) + VisibleAreas(ys, threshold)
  {
    if ys != [] {
      var init := ys[..|ys| - 1];
      VisibleAreasAppend(xs, init, threshold);
      assert (xs + ys)[..|xs + ys| - 1] == xs + init;
      var last := ys[|ys| - 1];
      assert (xs + ys)[|xs + ys| - 1] == last;
      if last.weight >= threshold {
        assert (VisibleAreas(xs, threshold) + VisibleAreas(init, threshold)) + [last]
               == VisibleAreas(xs, threshold) + (VisibleAreas(init, threshold) + [last]);
      }
    } else {
      assert xs + ys == xs;
      assert VisibleAreas(xs, threshold) + [] == VisibleAreas(xs, threshold);
    }
  }

  /** Each area is kept exactly as often as it occurs, when heavy enough. */
  lemma {:induction false} VisibleAreasCounts(areas: seq<Area>, threshold: int, a: Area)
    ensures multiset(VisibleAreas(areas, threshold))[a] == if a.weight >= threshold then multiset(areas)[a] else 0
  {
    if areas != [] {
      var init := areas[..|areas| - 1];
      VisibleAreasCounts(init, threshold, a);
      assert areas == init + [areas[|areas| - 1]];
    }
  }

  /** Raising the threshold never brings an area back: a stricter filter keeps a sub-list. */
  lemma {:induction false} VisibleAreasStricter(areas: seq<Area>, low: int, high: int)
    requires low <= high
    ensures VisibleAreas(VisibleAreas(areas, low), high) == VisibleAreas(areas, high)
  {
    if areas != [] {
      var init := areas[..|areas| - 1];
      var last := areas[|areas| - 1];
      VisibleAreasStricter(init, low, high);
      if last.weight >= low {
        VisibleAreasAppend(VisibleAreas(init, low), [last], high);
      }
    }
  }

  /** The fill colours from the lowest band to the highest. */
  const BAND_COLORS: seq<string> := ["#ff7800", "#007888", "#0022AA", "#7700AA"]

  /** The weight band: how many of the thresholds 3, 4 and 5 the weight reaches. */
  function Band(weight: int): (b: nat)
    ensures b < |BAND_COLORS|
    ensures b == 0 <==> weight < 3
    ensures b == |BAND_COLORS| - 1 <==> weight >= 5
  {
    (if weight >= 3 then 1 else 0) + (if weight >= 4 then 1 else 0) + (if weight >= 5 then 1 else 0)
  }

  /** The `style` callback of the area layer, fill colour part: the colour of the weight's band. */
  function AreaFillColor(weight: int): (c: string)
    ensures c == BAND_COLORS[Band(weight)]
  {
    if weight >= 5 then "#7700AA"
    else if weight >= 4 then "#0022AA"
    else if weight >= 3 then "#007888"
    else "#ff7800"
  }

  /** The colour is the band's colour, and the band never drops as the weight grows. */
  lemma AreaFillColorByBand(weight: int, heavier: int)
    ensures AreaFillColor(weight) == BAND_COLORS[Band(weight)]
    ensures weight <= heavier ==> Band(weight) <= Band(heavier)
  {
  }

  /** Distinct bands are drawn in distinct colours. */
  lemma BandColorsDistinct()
    ensures forall i, j :: 0 <= i < j < |BAND_COLORS| ==> BAND_COLORS[i] != BAND_COLORS[j]
  {
  }
}
