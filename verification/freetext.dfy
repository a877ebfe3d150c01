/** The free-text search algorithm (`pelias_search_free`): the shared search
    parameters, a `text` parameter per feature from the chosen text field,
    and the shared per-feature loop against the provider's `search` endpoint. */
module FreeTextSearch {
  import opened Wrappers
  import opened Payload
  import PyDict
  import Strings
  import RequestClient
  import ResponseHandler
  import QueryParams
  import Batch
  import FeatureParams

  const AlgoName := "pelias_search_free"

  /** `ALGO_NAME_LIST[1]`, the provider endpoint the algorithm calls. */
  const EndpointKey := "search"

  lemma EndpointKeyOfName()
    ensures Strings.Split(AlgoName, '_') == ["pelias", "search", "free"]
    ensures Strings.Split(AlgoName, '_')[1] == EndpointKey
  {
    var parts := ["pelias", "search", "free"];
    assert Strings.Join(parts, "_") == AlgoName;
    Strings.SplitJoin(parts, '_');
  }

  /** The algorithm's inputs besides the features: the id field, the name of
      the text field ("" when none was chosen), the spatial restrictions and
      the filters. */
  datatype Inputs = Inputs(idField: ResponseHandler.Field, textField: string,
                           area: QueryParams.Area, filters: QueryParams.Filters)

  /** The job of every input feature: `params_feat` holds `text` when the text
      field is chosen and truthy. */
  function Jobs(decimal: real -> string, inputs: Inputs, feats: seq<PyDict.Dict<Value>>): seq<Batch.Job>
    requires QueryParams.ValidFilters(inputs.filters)
  {
    FeatureParams.Jobs(QueryParams.SearchParams(decimal, inputs.area, inputs.filters),
                       ["text"], [inputs.textField], inputs.idField.name, feats)
  }

  /** `processAlgorithm`: the sink's fields come from a fresh handler for the
      id field, and the loop runs over all features, numbered from 0. */
  function Run(decimal: real -> string, provider: RequestClient.Provider, inputs: Inputs,
               call: (nat, string, PyDict.Dict<Value>) -> Result<Body, RequestClient.ClientError>,
               feats: seq<PyDict.Dict<Value>>): Batch.Report
    requires QueryParams.ValidFilters(inputs.filters)
  {
    var h := ResponseHandler.GetFields(ResponseHandler.NewHandler(inputs.idField)).0;
    Batch.Process(h, EndpointKey, Batch.Endpoint(provider, EndpointKey), call, Jobs(decimal, inputs, feats), 0, |feats|)
  }

  /** Each request carries the feature's text when the field is chosen and the
      value truthy, and otherwise exactly the shared search parameters. */
  lemma RequestParams(decimal: real -> string, inputs: Inputs, feats: seq<PyDict.Dict<Value>>, n: nat, k: string)
    requires QueryParams.ValidFilters(inputs.filters) && n < |feats|
    requires Jobs(decimal, inputs, feats)[n].Job?
    ensures var feat := feats[n];
      PyDict.Get(Jobs(decimal, inputs, feats)[n].params, k) ==
        if k == "text" && FeatureParams.Wanted(feat, inputs.textField) then PyDict.Get(feat, inputs.textField)
        else if QueryParams.AreaValue(decimal, inputs.area, k).Some? then QueryParams.AreaValue(decimal, inputs.area, k)
        else QueryParams.FilterValue(inputs.filters, k)
  {
    var shared := QueryParams.SearchParams(decimal, inputs.area, inputs.filters);
    QueryParams.SearchParamsGet(decimal, inputs.area, inputs.filters, k);
    if k == "text" {
      FeatureParams.JobParamsAt(shared, ["text"], [inputs.textField], inputs.idField.name, feats[n], 0);
    } else {
      FeatureParams.JobParamsOther(shared, ["text"], [inputs.textField], inputs.idField.name, feats[n], k);
    }
  }

  /** A feature stops the run with `KeyError` exactly when the chosen text
      field or the id field is missing from it, the text field first. */
  lemma BrokenFeature(decimal: real -> string, inputs: Inputs, feats: seq<PyDict.Dict<Value>>, n: nat)
    requires QueryParams.ValidFilters(inputs.filters) && n < |feats|
    ensures var j := Jobs(decimal, inputs, feats)[n];
      && (j.Broken? <==> FeatureParams.Missing(feats[n], inputs.textField) || PyDict.Get(feats[n], inputs.idField.name).None?)
      && (j.Broken? ==> j.error == RequestClient.KeyError(
            if FeatureParams.Missing(feats[n], inputs.textField) then inputs.textField else inputs.idField.name))
  {
    var shared := QueryParams.SearchParams(decimal, inputs.area, inputs.filters);
    FeatureParams.JobBroken(shared, ["text"], [inputs.textField], inputs.idField.name, feats[n]);
    FeatureParams.CollectFails([], ["text"], [inputs.textField], feats[n]);
    assert [inputs.textField][0] == inputs.textField;
  }

  /** A provider without a `search` endpoint: the first feature whose
      attributes read fine raises `KeyError('search')` before anything is sent. */
  lemma MissingSearchEndpoint(decimal: real -> string, provider: RequestClient.Provider, inputs: Inputs,
                              call: (nat, string, PyDict.Dict<Value>) -> Result<Body, RequestClient.ClientError>,
                              feats: seq<PyDict.Dict<Value>>)
    requires QueryParams.ValidFilters(inputs.filters) && EndpointKey !in provider.endpoints
    requires |feats| > 0 && Jobs(decimal, inputs, feats)[0].Job?
    ensures var r := Run(decimal, provider, inputs, call, feats);
      r.raised == Some(RequestClient.KeyError("search")) && r.sent == [] && r.records == []
  {
    var h := ResponseHandler.GetFields(ResponseHandler.NewHandler(inputs.idField)).0;
    Batch.MissingEndpointRaises(h, EndpointKey, call, Jobs(decimal, inputs, feats), 0, |feats|);
  }

  /** An id field called "name" loses its map entry to the "name" property
      key, so no output field carries its name: the first reply with any
      result stops the run with `KeyError('name')` before a single record
      reaches the sink. */
  lemma IdNamedNameAborts(decimal: real -> string, provider: RequestClient.Provider, inputs: Inputs,
                          call: (nat, string, PyDict.Dict<Value>) -> Result<Body, RequestClient.ClientError>,
                          feats: seq<PyDict.Dict<Value>>)
    requires QueryParams.ValidFilters(inputs.filters) && inputs.idField.name == "name"
    requires EndpointKey in provider.endpoints
    requires |feats| > 0 && Jobs(decimal, inputs, feats)[0].Job?
    requires call(0, provider.endpoints[EndpointKey], Jobs(decimal, inputs, feats)[0].params).Success?
    requires |call(0, provider.endpoints[EndpointKey], Jobs(decimal, inputs, feats)[0].params).value.features| > 0
    ensures var r := Run(decimal, provider, inputs, call, feats);
      && r.raised == Some(RequestClient.KeyError("name")) && r.records == [] && r.progress == []
      && r.sent == [(provider.endpoints[EndpointKey], Jobs(decimal, inputs, feats)[0].params)]
  {
    var h := ResponseHandler.GetFields(ResponseHandler.NewHandler(inputs.idField)).0;
    var jobs := Jobs(decimal, inputs, feats);
    var body := call(0, provider.endpoints[EndpointKey], jobs[0].params).value;
    ResponseHandler.IdNamedNameRaises(inputs.idField.ftype, body, jobs[0].idValue);
    assert inputs.idField == ResponseHandler.Field("name", inputs.idField.ftype);
    Batch.GenerationErrorRaises(h, EndpointKey, Batch.Endpoint(provider, EndpointKey), call, jobs, 0, |feats|, 0);
    assert Batch.Process(h, EndpointKey, Batch.Endpoint(provider, EndpointKey), call, jobs[..0], 0, |feats|) == Batch.Empty;
  }
}
