/** The request parameters the processing algorithms share across all input
    features: the spatial restrictions of the two search algorithms (focus
    point, bounding rectangle, bounding circle) and the filters all three
    algorithms offer (country, layers, sources, result count). Each is put into
    the dict only when the user gave it, except the result count. */
module QueryParams {
  import opened Wrappers
  import opened Payload
  import PyDict
  import Strings
  import Convert
  import Vocab

  /** A point parameter in WGS84; QGIS gives (0, 0) when the user left it empty. */
  datatype Point = Point(x: real, y: real)

  /** `p.x() and p.y()`: a point counts as given only when both coordinates
      are non-zero. */
  predicate Given(p: Point)
  {
    p.x != 0.0 && p.y != 0.0
  }

  /** A rectangle's coordinates in the order `getCoords()` lists them. */
  datatype Rect = Rect(xMin: real, yMin: real, xMax: real, yMax: real)

  /** The spatial restrictions: focus point, rectangle (`None` for a null
      extent), circle centre and radius. */
  datatype Area = Area(focus: Point, rect: Option<Rect>, circle: Point, radius: int)

  /** The filters: a country code ("" when empty), the chosen layer and source
      indices, and the result count. */
  datatype Filters = Filters(country: string, layers: seq<nat>, sources: seq<nat>, size: int)

  /** The enum parameters only ever give indices into the vocabularies. */
  predicate ValidFilters(f: Filters)
  {
    Vocab.ValidIndices(Vocab.Layers, f.layers) && Vocab.ValidIndices(Vocab.Sources, f.sources)
  }

  /** `format_float(x)`: `decimal` stands for the decimal text of `round(x, 6)`,
      which is not modelled; the trim is `Convert.TrimFloatText`. */
  function FormatFloat(decimal: real -> string, x: real): string
  {
    Convert.TrimFloatText(decimal(x))
  }

  /** A block of assignments `params[k] = v` guarded by one condition. */
  function AssignIf(d: PyDict.Dict<Value>, on: bool, pairs: seq<(string, Value)>): PyDict.Dict<Value>
  {
    if on then PyDict.Merge(d, pairs) else d
  }

  lemma AssignIfGet(d: PyDict.Dict<Value>, on: bool, pairs: seq<(string, Value)>, k: string)
    requires PyDict.Wf(pairs)
    ensures PyDict.Get(AssignIf(d, on, pairs), k) ==
      if on && PyDict.Get(pairs, k).Some? then PyDict.Get(pairs, k) else PyDict.Get(d, k)
  {
    if on {
      PyDict.MergeGet(d, pairs, k);
    }
  }

  lemma AssignIfWf(d: PyDict.Dict<Value>, on: bool, pairs: seq<(string, Value)>)
    requires PyDict.Wf(d)
    ensures PyDict.Wf(AssignIf(d, on, pairs))
  {
    PyDict.MergeKeys(d, pairs);
  }

  function FocusPairs(decimal: real -> string, p: Point): seq<(string, Value)>
  {
    [("focus.lon", Str(FormatFloat(decimal, p.x))), ("focus.lat", Str(FormatFloat(decimal, p.y)))]
  }

  function RectPairs(decimal: real -> string, r: Rect): seq<(string, Value)>
  {
    [("boundary.rect.min_lon", Str(FormatFloat(decimal, r.xMin))),
     ("boundary.rect.min_lat", Str(FormatFloat(decimal, r.yMin))),
     ("boundary.rect.max_lon", Str(FormatFloat(decimal, r.xMax))),
     ("boundary.rect.max_lat", Str(FormatFloat(decimal, r.yMax)))]
  }

  function CirclePairs(decimal: real -> string, p: Point, radius: int): seq<(string, Value)>
  {
    [("boundary.circle.lon", Str(FormatFloat(decimal, p.x))),
     ("boundary.circle.lat", Str(FormatFloat(decimal, p.y))),
     ("boundary.circle.radius", Str(Strings.IntText(radius)))]
  }

  /** The spatial part of the shared dict of both search algorithms, assigned
      into an empty dict: focus, then rectangle, then circle. */
  function AreaParams(decimal: real -> string, a: Area): PyDict.Dict<Value>
  {
    var d1 := AssignIf([], Given(a.focus), FocusPairs(decimal, a.focus));
    var d2 := if a.rect.Some? then PyDict.Merge(d1, RectPairs(decimal, a.rect.value)) else d1;
    AssignIf(d2, Given(a.circle), CirclePairs(decimal, a.circle, a.radius))
  }

  /** The filter assignments into `d`: country, layers and sources when
      non-empty, the size always. */
  function FilterParams(d: PyDict.Dict<Value>, f: Filters): PyDict.Dict<Value>
    requires ValidFilters(f)
  {
    var d1 := AssignIf(d, f.country != "", [("boundary.country", Str(f.country))]);
    var d2 := AssignIf(d1, |f.layers| > 0, [("layers", Str(Vocab.SelectionParam(Vocab.Layers, f.layers)))]);
    var d3 := AssignIf(d2, |f.sources| > 0, [("sources", Str(Vocab.SelectionParam(Vocab.Sources, f.sources)))]);
    PyDict.Set(d3, "size", Str(Strings.IntText(f.size)))
  }

  /** The shared dict of the free-text and structured searches. */
  function SearchParams(decimal: real -> string, a: Area, f: Filters): PyDict.Dict<Value>
    requires ValidFilters(f)
  {
    FilterParams(AreaParams(decimal, a), f)
  }

  /** The shared dict of the reverse algorithm: filters only. */
  function ReverseParams(f: Filters): PyDict.Dict<Value>
    requires ValidFilters(f)
  {
    FilterParams([], f)
  }

  /** Reference for the spatial keys, key by key: the value each key should
      carry, `None` when it should be absent. */
  function AreaValue(decimal: real -> string, a: Area, k: string): Option<Value>
  {
    if k == "focus.lon" then (if Given(a.focus) then Some(Str(FormatFloat(decimal, a.focus.x))) else None)
    else if k == "focus.lat" then (if Given(a.focus) then Some(Str(FormatFloat(decimal, a.focus.y))) else None)
    else if k == "boundary.rect.min_lon" then (if a.rect.Some? then Some(Str(FormatFloat(decimal, a.rect.value.xMin))) else None)
    else if k == "boundary.rect.min_lat" then (if a.rect.Some? then Some(Str(FormatFloat(decimal, a.rect.value.yMin))) else None)
    else if k == "boundary.rect.max_lon" then (if a.rect.Some? then Some(Str(FormatFloat(decimal, a.rect.value.xMax))) else None)
    else if k == "boundary.rect.max_lat" then (if a.rect.Some? then Some(Str(FormatFloat(decimal, a.rect.value.yMax))) else None)
    else if k == "boundary.circle.lon" then (if Given(a.circle) then Some(Str(FormatFloat(decimal, a.circle.x))) else None)
    else if k == "boundary.circle.lat" then (if Given(a.circle) then Some(Str(FormatFloat(decimal, a.circle.y))) else None)
    else if k == "boundary.circle.radius" then (if Given(a.circle) then Some(Str(Strings.IntText(a.radius))) else None)
    else None
  }

  /** Reference for the filter keys, key by key. */
  function FilterValue(f: Filters, k: string): Option<Value>
    requires ValidFilters(f)
  {
    if k == "boundary.country" then (if f.country != "" then Some(Str(f.country)) else None)
    else if k == "layers" then (if |f.layers| > 0 then Some(Str(Vocab.SelectionParam(Vocab.Layers, f.layers))) else None)
    else if k == "sources" then (if |f.sources| > 0 then Some(Str(Vocab.SelectionParam(Vocab.Sources, f.sources))) else None)
    else if k == "size" then Some(Str(Strings.IntText(f.size)))
    else None
  }

  lemma FocusPairsGet(decimal: real -> string, p: Point, k: string)
    ensures PyDict.Wf(FocusPairs(decimal, p))
    ensures PyDict.Get(FocusPairs(decimal, p), k) ==
      if k == "focus.lon" then Some(Str(FormatFloat(decimal, p.x)))
      else if k == "focus.lat" then Some(Str(FormatFloat(decimal, p.y)))
      else None
  {
  }

  lemma RectPairsGet(decimal: real -> string, r: Rect, k: string)
    ensures PyDict.Wf(RectPairs(decimal, r))
    ensures PyDict.Get(RectPairs(decimal, r), k) ==
      if k == "boundary.rect.min_lon" then Some(Str(FormatFloat(decimal, r.xMin)))
      else if k == "boundary.rect.min_lat" then Some(Str(FormatFloat(decimal, r.yMin)))
      else if k == "boundary.rect.max_lon" then Some(Str(FormatFloat(decimal, r.xMax)))
      else if k == "boundary.rect.max_lat" then Some(Str(FormatFloat(decimal, r.yMax)))
      else None
  {
    var ps := RectPairs(decimal, r);
    assert ps[1..][1..][1..] == [ps[3]];
  }

  lemma CirclePairsGet(decimal: real -> string, p: Point, radius: int, k: string)
    ensures PyDict.Wf(CirclePairs(decimal, p, radius))
    ensures PyDict.Get(CirclePairs(decimal, p, radius), k) ==
      if k == "boundary.circle.lon" then Some(Str(FormatFloat(decimal, p.x)))
      else if k == "boundary.circle.lat" then Some(Str(FormatFloat(decimal, p.y)))
      else if k == "boundary.circle.radius" then Some(Str(Strings.IntText(radius)))
      else None
  {
  }

  /** Every spatial key carries exactly its reference value. */
  lemma AreaParamsGet(decimal: real -> string, a: Area, k: string)
    ensures PyDict.Get(AreaParams(decimal, a), k) == AreaValue(decimal, a, k)
  {
    var d1 := AssignIf([], Given(a.focus), FocusPairs(decimal, a.focus));
    var d2 := if a.rect.Some? then PyDict.Merge(d1, RectPairs(decimal, a.rect.value)) else d1;
    FocusPairsGet(decimal, a.focus, k);
    CirclePairsGet(decimal, a.circle, a.radius, k);
    AssignIfGet([], Given(a.focus), FocusPairs(decimal, a.focus), k);
    if a.rect.Some? {
      RectPairsGet(decimal, a.rect.value, k);
      PyDict.MergeGet(d1, RectPairs(decimal, a.rect.value), k);
    }
    AssignIfGet(d2, Given(a.circle), CirclePairs(decimal, a.circle, a.radius), k);
  }

  /** The filter keys are assigned over whatever `d` holds; every other key
      keeps its value in `d`. */
  lemma FilterParamsGet(d: PyDict.Dict<Value>, f: Filters, k: string)
    requires ValidFilters(f)
    ensures PyDict.Get(FilterParams(d, f), k) ==
      if FilterValue(f, k).Some? then FilterValue(f, k) else PyDict.Get(d, k)
  {
    var d1 := AssignIf(d, f.country != "", [("boundary.country", Str(f.country))]);
    var d2 := AssignIf(d1, |f.layers| > 0, [("layers", Str(Vocab.SelectionParam(Vocab.Layers, f.layers)))]);
    var d3 := AssignIf(d2, |f.sources| > 0, [("sources", Str(Vocab.SelectionParam(Vocab.Sources, f.sources)))]);
    AssignIfGet(d, f.country != "", [("boundary.country", Str(f.country))], k);
    AssignIfGet(d1, |f.layers| > 0, [("layers", Str(Vocab.SelectionParam(Vocab.Layers, f.layers)))], k);
    AssignIfGet(d2, |f.sources| > 0, [("sources", Str(Vocab.SelectionParam(Vocab.Sources, f.sources)))], k);
    PyDict.SetGet(d3, "size", Str(Strings.IntText(f.size)));
  }

  lemma FilterParamsWf(d: PyDict.Dict<Value>, f: Filters)
    requires ValidFilters(f) && PyDict.Wf(d)
    ensures PyDict.Wf(FilterParams(d, f))
  {
    var d1 := AssignIf(d, f.country != "", [("boundary.country", Str(f.country))]);
    var d2 := AssignIf(d1, |f.layers| > 0, [("layers", Str(Vocab.SelectionParam(Vocab.Layers, f.layers)))]);
    var d3 := AssignIf(d2, |f.sources| > 0, [("sources", Str(Vocab.SelectionParam(Vocab.Sources, f.sources)))]);
    AssignIfWf(d, f.country != "", [("boundary.country", Str(f.country))]);
    AssignIfWf(d1, |f.layers| > 0, [("layers", Str(Vocab.SelectionParam(Vocab.Layers, f.layers)))]);
    AssignIfWf(d2, |f.sources| > 0, [("sources", Str(Vocab.SelectionParam(Vocab.Sources, f.sources)))]);
    PyDict.SetWf(d3, "size", Str(Strings.IntText(f.size)));
  }

  /** No key is both a spatial key and a filter key. */
  lemma AreaFilterApart(decimal: real -> string, a: Area, f: Filters, k: string)
    requires ValidFilters(f)
    ensures AreaValue(decimal, a, k).Some? ==> FilterValue(f, k).None?
  {
  }

  /** The shared search dict: every key carries its reference value, spatial
      or filter, and no other key is present. The dict is well formed. */
  lemma SearchParamsGet(decimal: real -> string, a: Area, f: Filters, k: string)
    requires ValidFilters(f)
    ensures PyDict.Wf(SearchParams(decimal, a, f))
    ensures PyDict.Get(SearchParams(decimal, a, f), k) ==
      if AreaValue(decimal, a, k).Some? then AreaValue(decimal, a, k) else FilterValue(f, k)
  {
    AreaParamsGet(decimal, a, k);
    FilterParamsGet(AreaParams(decimal, a), f, k);
    AreaFilterApart(decimal, a, f, k);
    assert PyDict.Wf(AreaParams(decimal, a)) by {
      var d1 := AssignIf([], Given(a.focus), FocusPairs(decimal, a.focus));
      AssignIfWf([], Given(a.focus), FocusPairs(decimal, a.focus));
      PyDict.MergeKeys(d1, RectPairs(decimal, if a.rect.Some? then a.rect.value else Rect(0.0, 0.0, 0.0, 0.0)));
      var d2 := if a.rect.Some? then PyDict.Merge(d1, RectPairs(decimal, a.rect.value)) else d1;
      AssignIfWf(d2, Given(a.circle), CirclePairs(decimal, a.circle, a.radius));
    }
    FilterParamsWf(AreaParams(decimal, a), f);
  }

  /** The reverse dict holds exactly the filter keys: no focus, rectangle or
      circle key ever appears in it. */
  lemma ReverseParamsGet(f: Filters, k: string)
    requires ValidFilters(f)
    ensures PyDict.Wf(ReverseParams(f))
    ensures PyDict.Get(ReverseParams(f), k) == FilterValue(f, k)
  {
    FilterParamsGet([], f, k);
    FilterParamsWf([], f);
  }

  /** The focus is sent only for a point with both coordinates non-zero, a
      point on the equator or the prime meridian being dropped, and then as the
      trimmed decimal text of each coordinate. */
  lemma FocusOnlyWhenGiven(decimal: real -> string, a: Area, f: Filters)
    requires ValidFilters(f)
    ensures var p := SearchParams(decimal, a, f);
      && PyDict.Get(p, "focus.lon") == (if Given(a.focus) then Some(Str(FormatFloat(decimal, a.focus.x))) else None)
      && PyDict.Get(p, "focus.lat") == (if Given(a.focus) then Some(Str(FormatFloat(decimal, a.focus.y))) else None)
  {
    SearchParamsGet(decimal, a, f, "focus.lon");
    SearchParamsGet(decimal, a, f, "focus.lat");
  }

  /** The filter inclusion rules of the shared search dict: country, layers
      and sources only when non-empty, and the size always, as text. */
  lemma SearchFilterPresence(decimal: real -> string, a: Area, f: Filters)
    requires ValidFilters(f)
    ensures var p := SearchParams(decimal, a, f);
      && (PyDict.Get(p, "boundary.country").Some? <==> f.country != "")
      && (PyDict.Get(p, "layers").Some? <==> |f.layers| > 0)
      && (PyDict.Get(p, "sources").Some? <==> |f.sources| > 0)
      && PyDict.Get(p, "size") == Some(Str(Strings.IntText(f.size)))
  {
    SearchParamsGet(decimal, a, f, "boundary.country");
    SearchParamsGet(decimal, a, f, "layers");
    SearchParamsGet(decimal, a, f, "sources");
    SearchParamsGet(decimal, a, f, "size");
  }
}
