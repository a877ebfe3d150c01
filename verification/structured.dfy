/** The structured search algorithm (`pelias_search_structured`): the shared
    search parameters, up to eight address parameters per feature taken from
    the chosen attribute fields, and the shared per-feature loop against the
    provider's `structured` endpoint. */
module StructuredSearch {
  import opened Wrappers
  import opened Payload
  import PyDict
  import Strings
  import Vocab
  import RequestClient
  import ResponseHandler
  import QueryParams
  import Batch
  import FeatureParams

  const AlgoName := "pelias_search_structured"

  /** `ALGO_NAME_LIST[2]`, the provider endpoint the algorithm calls. */
  const EndpointKey := "structured"

  lemma EndpointKeyOfName()
    ensures Strings.Split(AlgoName, '_') == ["pelias", "search", "structured"]
    ensures Strings.Split(AlgoName, '_')[2] == EndpointKey
  {
    var parts := ["pelias", "search", "structured"];
    assert Strings.Join(parts, "_") == AlgoName;
    Strings.SplitJoin(parts, '_');
  }

  /** The request keys of the per-feature parameters, in the order they are set. */
  const AddressKeys: seq<string> :=
    ["address", "neighbourhood", "borough", "locality", "county", "region", "postalcode", "country"]

  lemma AddressKeysDistinct()
    ensures |AddressKeys| == 8 && FeatureParams.Distinct(AddressKeys)
  {
    assert forall i, j :: 0 <= i < j < |AddressKeys| ==>
      Vocab.Signature(AddressKeys[i]) != Vocab.Signature(AddressKeys[j]);
  }

  /** The attribute field chosen for each address part; "" when none was chosen. */
  datatype AddressFields = AddressFields(
    address: string, neighbourhood: string, borough: string, locality: string,
    county: string, region: string, postalcode: string, country: string)

  /** The field names in the order of `AddressKeys`. */
  function Names(a: AddressFields): (r: seq<string>)
    ensures |r| == |AddressKeys|
  {
    [a.address, a.neighbourhood, a.borough, a.locality, a.county, a.region, a.postalcode, a.country]
  }

  datatype Inputs = Inputs(idField: ResponseHandler.Field, fields: AddressFields,
                           area: QueryParams.Area, filters: QueryParams.Filters)

  function Jobs(decimal: real -> string, inputs: Inputs, feats: seq<PyDict.Dict<Value>>): seq<Batch.Job>
    requires QueryParams.ValidFilters(inputs.filters)
  {
    FeatureParams.Jobs(QueryParams.SearchParams(decimal, inputs.area, inputs.filters),
                       AddressKeys, Names(inputs.fields), inputs.idField.name, feats)
  }

  /** `processAlgorithm`: a fresh handler for the id field and the loop over
      all features, numbered from 0. */
  function Run(decimal: real -> string, provider: RequestClient.Provider, inputs: Inputs,
               call: (nat, string, PyDict.Dict<Value>) -> Result<Body, RequestClient.ClientError>,
               feats: seq<PyDict.Dict<Value>>): Batch.Report
    requires QueryParams.ValidFilters(inputs.filters)
  {
    var h := ResponseHandler.GetFields(ResponseHandler.NewHandler(inputs.idField)).0;
    Batch.Process(h, EndpointKey, Batch.Endpoint(provider, EndpointKey), call, Jobs(decimal, inputs, feats), 0, |feats|)
  }

  /** The address part `i` of a request is the feature's value of its chosen
      field when that value is truthy, and otherwise what the shared search
      parameters hold for that key. */
  lemma AddressParam(decimal: real -> string, inputs: Inputs, feats: seq<PyDict.Dict<Value>>, n: nat, i: nat)
    requires QueryParams.ValidFilters(inputs.filters) && n < |feats| && i < |AddressKeys|
    requires Jobs(decimal, inputs, feats)[n].Job?
    ensures var name := Names(inputs.fields)[i];
      PyDict.Get(Jobs(decimal, inputs, feats)[n].params, AddressKeys[i]) ==
        if FeatureParams.Wanted(feats[n], name) then PyDict.Get(feats[n], name)
        else PyDict.Get(QueryParams.SearchParams(decimal, inputs.area, inputs.filters), AddressKeys[i])
  {
    AddressKeysDistinct();
    FeatureParams.JobParamsAt(QueryParams.SearchParams(decimal, inputs.area, inputs.filters),
                              AddressKeys, Names(inputs.fields), inputs.idField.name, feats[n], i);
  }

  /** Every other key of a request is the shared search parameter. */
  lemma OtherParam(decimal: real -> string, inputs: Inputs, feats: seq<PyDict.Dict<Value>>, n: nat, k: string)
    requires QueryParams.ValidFilters(inputs.filters) && n < |feats| && k !in AddressKeys
    requires Jobs(decimal, inputs, feats)[n].Job?
    ensures PyDict.Get(Jobs(decimal, inputs, feats)[n].params, k) ==
      if QueryParams.AreaValue(decimal, inputs.area, k).Some? then QueryParams.AreaValue(decimal, inputs.area, k)
      else QueryParams.FilterValue(inputs.filters, k)
  {
    var shared := QueryParams.SearchParams(decimal, inputs.area, inputs.filters);
    QueryParams.SearchParamsGet(decimal, inputs.area, inputs.filters, k);
    FeatureParams.JobParamsOther(shared, AddressKeys, Names(inputs.fields), inputs.idField.name, feats[n], k);
  }

  /** A feature stops the run exactly when one of the chosen fields or the id
      field is missing from it. */
  lemma BrokenFeature(decimal: real -> string, inputs: Inputs, feats: seq<PyDict.Dict<Value>>, n: nat)
    requires QueryParams.ValidFilters(inputs.filters) && n < |feats|
    ensures var j := Jobs(decimal, inputs, feats)[n];
      var names := Names(inputs.fields);
      j.Broken? <==>
        (exists i :: 0 <= i < |names| && FeatureParams.Missing(feats[n], names[i])) ||
        PyDict.Get(feats[n], inputs.idField.name).None?
  {
    FeatureParams.JobBroken(QueryParams.SearchParams(decimal, inputs.area, inputs.filters),
                            AddressKeys, Names(inputs.fields), inputs.idField.name, feats[n]);
  }
}
