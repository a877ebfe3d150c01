/** The reverse geocoding algorithm (`pelias_reverse`): only the filter
    parameters are shared, each feature's point, reprojected to WGS84, is
    written into that same dict as `point.lon` / `point.lat`, and the shared
    per-feature loop calls the provider's `reverse` endpoint. */
module ReverseGeocoding {
  import opened Wrappers
  import opened Payload
  import PyDict
  import Strings
  import RequestClient
  import ResponseHandler
  import QueryParams
  import Batch

  const AlgoName := "pelias_reverse"

  /** `ALGO_NAME_LIST[1]`, the provider endpoint the algorithm calls. */
  const EndpointKey := "reverse"

  lemma EndpointKeyOfName()
    ensures Strings.Split(AlgoName, '_') == ["pelias", "reverse"]
    ensures Strings.Split(AlgoName, '_')[1] == EndpointKey
  {
    var parts := ["pelias", "reverse"];
    assert Strings.Join(parts, "_") == AlgoName;
    Strings.SplitJoin(parts, '_');
  }

  /** An input feature: its attributes and its point geometry in the layer's CRS. */
  datatype PointFeature = PointFeature(attrs: PyDict.Dict<Value>, geometry: QueryParams.Point)

  datatype Inputs = Inputs(idField: ResponseHandler.Field, filters: QueryParams.Filters)

  /** `params['point.lon'] = x; params['point.lat'] = y`, as raw numbers. */
  function WithPoint(d: PyDict.Dict<Value>, p: QueryParams.Point): PyDict.Dict<Value>
  {
    PyDict.Set(PyDict.Set(d, "point.lon", Float(p.x)), "point.lat", Float(p.y))
  }

  /** The dict each request is given. The algorithm writes every feature's
      point into the one shared dict, so request `n` sees the dict as left by
      the features before it; `toWgs` stands for the reprojection. */
  function Requests(d: PyDict.Dict<Value>, toWgs: QueryParams.Point -> QueryParams.Point,
                    feats: seq<PointFeature>): (r: seq<PyDict.Dict<Value>>)
    ensures |r| == |feats|
    decreases |feats|
  {
    if |feats| == 0 then []
    else
      var d' := WithPoint(d, toWgs(feats[0].geometry));
      [d'] + Requests(d', toWgs, feats[1..])
  }

  /** Nothing of an earlier feature survives: request `n` is the shared dict
      with only feature `n`'s point written into it. */
  lemma {:induction false} RequestsAt(d: PyDict.Dict<Value>, toWgs: QueryParams.Point -> QueryParams.Point,
                                      feats: seq<PointFeature>, n: nat)
    requires n < |feats|
    ensures Requests(d, toWgs, feats)[n] == WithPoint(d, toWgs(feats[n].geometry))
    decreases n
  {
    if n > 0 {
      var p0, pn := toWgs(feats[0].geometry), toWgs(feats[n].geometry);
      var d' := WithPoint(d, p0);
      assert feats[1..][n - 1] == feats[n];
      RequestsAt(d', toWgs, feats[1..], n - 1);
      PyDict.SetOverwrite(d, "point.lon", "point.lat", Float(p0.x), Float(p0.y), Float(pn.x));
      PyDict.SetTwice(PyDict.Set(d, "point.lon", Float(pn.x)), "point.lat", Float(p0.y), Float(pn.y));
    }
  }

  /** The job of every input feature: the request dict and the id value, or
      the `KeyError` of a missing id field. */
  function Jobs(inputs: Inputs, toWgs: QueryParams.Point -> QueryParams.Point,
                feats: seq<PointFeature>): (jobs: seq<Batch.Job>)
    requires QueryParams.ValidFilters(inputs.filters)
    ensures |jobs| == |feats|
  {
    var requests := Requests(QueryParams.ReverseParams(inputs.filters), toWgs, feats);
    seq(|feats|, i requires 0 <= i < |feats| =>
      match Batch.Attribute(feats[i].attrs, inputs.idField.name)
      case Failure(e) => Batch.Broken(e)
      case Success(idValue) => Batch.Job(requests[i], idValue))
  }

  /** `processAlgorithm`: a fresh handler for the id field and the loop over
      all features, numbered from 0. */
  function Run(provider: RequestClient.Provider, inputs: Inputs, toWgs: QueryParams.Point -> QueryParams.Point,
               call: (nat, string, PyDict.Dict<Value>) -> Result<Body, RequestClient.ClientError>,
               feats: seq<PointFeature>): Batch.Report
    requires QueryParams.ValidFilters(inputs.filters)
  {
    var h := ResponseHandler.GetFields(ResponseHandler.NewHandler(inputs.idField)).0;
    Batch.Process(h, EndpointKey, Batch.Endpoint(provider, EndpointKey), call, Jobs(inputs, toWgs, feats), 0, |feats|)
  }

  /** Request `n` holds feature `n`'s reprojected point and otherwise exactly
      the filter parameters. */
  lemma RequestParams(inputs: Inputs, toWgs: QueryParams.Point -> QueryParams.Point,
                      feats: seq<PointFeature>, n: nat, k: string)
    requires QueryParams.ValidFilters(inputs.filters) && n < |feats|
    requires Jobs(inputs, toWgs, feats)[n].Job?
    ensures var p := toWgs(feats[n].geometry);
      PyDict.Get(Jobs(inputs, toWgs, feats)[n].params, k) ==
        if k == "point.lat" then Some(Float(p.y))
        else if k == "point.lon" then Some(Float(p.x))
        else QueryParams.FilterValue(inputs.filters, k)
  {
    var shared := QueryParams.ReverseParams(inputs.filters);
    var p := toWgs(feats[n].geometry);
    RequestsAt(shared, toWgs, feats, n);
    QueryParams.ReverseParamsGet(inputs.filters, k);
    PyDict.SetGet(PyDict.Set(shared, "point.lon", Float(p.x)), "point.lat", Float(p.y));
    PyDict.SetGet(shared, "point.lon", Float(p.x));
  }

  /** A provider without a `reverse` endpoint: the first feature, when it has
      its id, raises `KeyError('reverse')` before anything is sent. */
  lemma MissingReverseEndpoint(provider: RequestClient.Provider, inputs: Inputs,
                               toWgs: QueryParams.Point -> QueryParams.Point,
                               call: (nat, string, PyDict.Dict<Value>) -> Result<Body, RequestClient.ClientError>,
                               feats: seq<PointFeature>)
    requires QueryParams.ValidFilters(inputs.filters) && EndpointKey !in provider.endpoints
    requires |feats| > 0 && Jobs(inputs, toWgs, feats)[0].Job?
    ensures var r := Run(provider, inputs, toWgs, call, feats);
      r.raised == Some(RequestClient.KeyError("reverse")) && r.sent == [] && r.records == []
  {
    var h := ResponseHandler.GetFields(ResponseHandler.NewHandler(inputs.idField)).0;
    Batch.MissingEndpointRaises(h, EndpointKey, call, Jobs(inputs, toWgs, feats), 0, |feats|);
  }
}
