/** The per-feature half of a search request: the parameters read from the
    input feature's own attributes (`params_feat`), the id value read next, and
    the request parameters `{**params, **params_feat}` they give together with
    the shared ones. */
module FeatureParams {
  import opened Wrappers
  import opened Payload
  import PyDict
  import RequestClient
  import Batch

  /** `name and feat_in[name]` holds: the field was chosen, the feature has it
      and its value is truthy. */
  predicate Wanted(feat: PyDict.Dict<Value>, name: string)
  {
    name != "" && PyDict.Get(feat, name).Some? && Truthy(PyDict.Get(feat, name).value)
  }

  /** A chosen field the feature lacks: reading it raises `KeyError`. */
  predicate Missing(feat: PyDict.Dict<Value>, name: string)
  {
    name != "" && PyDict.Get(feat, name).None?
  }

  predicate Distinct(keys: seq<string>)
  {
    forall i, j :: 0 <= i < j < |keys| ==> keys[i] != keys[j]
  }

  /** The statements `if name and feat_in[name]: params_feat[key] = feat_in[name]`
      for each parameter key and field name in order, starting from `d`. */
  function Collect(d: PyDict.Dict<Value>, keys: seq<string>, names: seq<string>,
                   feat: PyDict.Dict<Value>): Result<PyDict.Dict<Value>, RequestClient.ClientError>
    requires |keys| == |names|
    decreases |keys|
  {
    if |keys| == 0 then Success(d)
    else if names[0] == "" then Collect(d, keys[1..], names[1..], feat)
    else
      match Batch.Attribute(feat, names[0])
      case Failure(e) => Failure(e)
      case Success(v) => Collect(if Truthy(v) then PyDict.Set(d, keys[0], v) else d, keys[1..], names[1..], feat)
  }

  /** The block raises exactly when a chosen field is missing, and then with
      the `KeyError` of the first one. */
  lemma {:induction false} CollectFails(d: PyDict.Dict<Value>, keys: seq<string>, names: seq<string>,
                                        feat: PyDict.Dict<Value>)
    requires |keys| == |names|
    ensures Collect(d, keys, names, feat).Failure? <==> exists i :: 0 <= i < |names| && Missing(feat, names[i])
    ensures Collect(d, keys, names, feat).Failure? ==>
      exists i :: 0 <= i < |names| && Missing(feat, names[i]) && (forall j :: 0 <= j < i ==> !Missing(feat, names[j]))
        && Collect(d, keys, names, feat).error == RequestClient.KeyError(names[i])
    decreases |keys|
  {
    if |keys| > 0 {
      var d' := if Wanted(feat, names[0]) then PyDict.Set(d, keys[0], PyDict.Get(feat, names[0]).value) else d;
      assert names[0] != "" && PyDict.Get(feat, names[0]).Some? ==> Collect(d, keys, names, feat) == Collect(d', keys[1..], names[1..], feat);
      assert names[0] == "" ==> Collect(d, keys, names, feat) == Collect(d', keys[1..], names[1..], feat);
      CollectFails(d', keys[1..], names[1..], feat);
      if !Missing(feat, names[0]) {
        if Collect(d, keys, names, feat).Failure? {
          var i :| 0 <= i < |names[1..]| && Missing(feat, names[1..][i]) && (forall j :: 0 <= j < i ==> !Missing(feat, names[1..][j]))
            && Collect(d', keys[1..], names[1..], feat).error == RequestClient.KeyError(names[1..][i]);
          assert Missing(feat, names[i + 1]);
          forall j | 0 <= j < i + 1
            ensures !Missing(feat, names[j])
          {
            if j > 0 {
              assert names[j] == names[1..][j - 1];
            }
          }
        }
        if exists i :: 0 <= i < |names| && Missing(feat, names[i]) {
          var i :| 0 <= i < |names| && Missing(feat, names[i]);
          assert i > 0 && names[1..][i - 1] == names[i];
        }
      } else {
        assert Missing(feat, names[0]);
      }
    }
  }

  /** One statement of the block, for a field the feature has. */
  function Next(d: PyDict.Dict<Value>, key: string, name: string, feat: PyDict.Dict<Value>): PyDict.Dict<Value>
  {
    if Wanted(feat, name) then PyDict.Set(d, key, PyDict.Get(feat, name).value) else d
  }

  lemma CollectUnfold(d: PyDict.Dict<Value>, keys: seq<string>, names: seq<string>, feat: PyDict.Dict<Value>)
    requires |keys| == |names| && |keys| > 0 && !Missing(feat, names[0])
    ensures Collect(d, keys, names, feat) == Collect(Next(d, keys[0], names[0], feat), keys[1..], names[1..], feat)
  {
  }

  lemma NextGet(d: PyDict.Dict<Value>, key: string, name: string, feat: PyDict.Dict<Value>, k: string)
    ensures PyDict.Get(Next(d, key, name, feat), k) ==
      if k == key && Wanted(feat, name) then PyDict.Get(feat, name) else PyDict.Get(d, k)
  {
    if Wanted(feat, name) {
      PyDict.SetGet(d, key, PyDict.Get(feat, name).value);
    }
  }

  lemma DistinctTail(keys: seq<string>)
    requires |keys| > 0 && Distinct(keys)
    ensures Distinct(keys[1..]) && keys[0] !in keys[1..]
  {
    forall a, b | 0 <= a < b < |keys[1..]|
      ensures keys[1..][a] != keys[1..][b]
    {
      assert keys[1..][a] == keys[a + 1] && keys[1..][b] == keys[b + 1];
    }
    forall j | 0 <= j < |keys[1..]|
      ensures keys[1..][j] != keys[0]
    {
      assert keys[1..][j] == keys[j + 1];
    }
  }

  /** After the block, the key at position `i` holds the feature's value when
      its field is wanted, and whatever it held before otherwise. */
  lemma {:induction false} CollectGetAt(d: PyDict.Dict<Value>, keys: seq<string>, names: seq<string>,
                                        feat: PyDict.Dict<Value>, i: nat)
    requires |keys| == |names| && Distinct(keys) && i < |keys|
    requires Collect(d, keys, names, feat).Success?
    ensures PyDict.Get(Collect(d, keys, names, feat).value, keys[i]) ==
      if Wanted(feat, names[i]) then PyDict.Get(feat, names[i]) else PyDict.Get(d, keys[i])
    decreases |keys|
  {
    CollectFails(d, keys, names, feat);
    assert !Missing(feat, names[0]);
    CollectUnfold(d, keys, names, feat);
    var d' := Next(d, keys[0], names[0], feat);
    DistinctTail(keys);
    NextGet(d, keys[0], names[0], feat, keys[i]);
    if i == 0 {
      CollectGetOther(d', keys[1..], names[1..], feat, keys[0]);
    } else {
      assert keys[1..][i - 1] == keys[i] && names[1..][i - 1] == names[i];
      assert keys[i] != keys[0];
      CollectGetAt(d', keys[1..], names[1..], feat, i - 1);
    }
  }

  /** Keys the block does not name keep their value. */
  lemma {:induction false} CollectGetOther(d: PyDict.Dict<Value>, keys: seq<string>, names: seq<string>,
                                           feat: PyDict.Dict<Value>, k: string)
    requires |keys| == |names| && k !in keys
    requires Collect(d, keys, names, feat).Success?
    ensures PyDict.Get(Collect(d, keys, names, feat).value, k) == PyDict.Get(d, k)
    decreases |keys|
  {
    if |keys| > 0 {
      var d' := if Wanted(feat, names[0]) then PyDict.Set(d, keys[0], PyDict.Get(feat, names[0]).value) else d;
      assert Collect(d, keys, names, feat) == Collect(d', keys[1..], names[1..], feat);
      assert k !in keys[1..];
      CollectGetOther(d', keys[1..], names[1..], feat, k);
      if Wanted(feat, names[0]) {
        PyDict.SetGet(d, keys[0], PyDict.Get(feat, names[0]).value);
      }
    }
  }

  lemma {:induction false} CollectWf(d: PyDict.Dict<Value>, keys: seq<string>, names: seq<string>,
                                     feat: PyDict.Dict<Value>)
    requires |keys| == |names| && PyDict.Wf(d)
    requires Collect(d, keys, names, feat).Success?
    ensures PyDict.Wf(Collect(d, keys, names, feat).value)
    decreases |keys|
  {
    if |keys| > 0 {
      var d' := if Wanted(feat, names[0]) then PyDict.Set(d, keys[0], PyDict.Get(feat, names[0]).value) else d;
      assert Collect(d, keys, names, feat) == Collect(d', keys[1..], names[1..], feat);
      if Wanted(feat, names[0]) {
        PyDict.SetWf(d, keys[0], PyDict.Get(feat, names[0]).value);
      }
      CollectWf(d', keys[1..], names[1..], feat);
    }
  }

  /** One feature of a search: its `params_feat`, then its id value; the
      request gets `{**shared, **params_feat}`. */
  function MakeJob(shared: PyDict.Dict<Value>, keys: seq<string>, names: seq<string>, idName: string,
                   feat: PyDict.Dict<Value>): Batch.Job
    requires |keys| == |names|
  {
    match Collect([], keys, names, feat)
    case Failure(e) => Batch.Broken(e)
    case Success(item) =>
      match Batch.Attribute(feat, idName)
      case Failure(e) => Batch.Broken(e)
      case Success(idValue) => Batch.Job(PyDict.Merge(shared, item), idValue)
  }

  /** The job of every input feature, in order. */
  function Jobs(shared: PyDict.Dict<Value>, keys: seq<string>, names: seq<string>, idName: string,
                feats: seq<PyDict.Dict<Value>>): (jobs: seq<Batch.Job>)
    requires |keys| == |names|
    ensures |jobs| == |feats|
    ensures forall i :: 0 <= i < |feats| ==> jobs[i] == MakeJob(shared, keys, names, idName, feats[i])
  {
    seq(|feats|, i requires 0 <= i < |feats| => MakeJob(shared, keys, names, idName, feats[i]))
  }

  /** A feature ends the run exactly when a chosen field or the id field is
      missing; a missing chosen field is reported before the id. */
  lemma JobBroken(shared: PyDict.Dict<Value>, keys: seq<string>, names: seq<string>, idName: string,
                  feat: PyDict.Dict<Value>)
    requires |keys| == |names|
    ensures var j := MakeJob(shared, keys, names, idName, feat);
      && (j.Broken? <==> (exists i :: 0 <= i < |names| && Missing(feat, names[i])) || PyDict.Get(feat, idName).None?)
      && (j.Broken? && !(exists i :: 0 <= i < |names| && Missing(feat, names[i])) ==>
            j.error == RequestClient.KeyError(idName))
      && (j.Job? ==> j.idValue == PyDict.Get(feat, idName).value)
  {
    CollectFails([], keys, names, feat);
  }

  /** A request's parameters: a wanted per-feature value wins over the shared
      parameter of the same key. */
  lemma JobParamsAt(shared: PyDict.Dict<Value>, keys: seq<string>, names: seq<string>, idName: string,
                    feat: PyDict.Dict<Value>, i: nat)
    requires |keys| == |names| && Distinct(keys) && i < |keys|
    requires MakeJob(shared, keys, names, idName, feat).Job?
    ensures PyDict.Get(MakeJob(shared, keys, names, idName, feat).params, keys[i]) ==
      if Wanted(feat, names[i]) then PyDict.Get(feat, names[i]) else PyDict.Get(shared, keys[i])
  {
    var item := Collect([], keys, names, feat).value;
    CollectWf([], keys, names, feat);
    PyDict.MergeGet(shared, item, keys[i]);
    CollectGetAt([], keys, names, feat, i);
  }

  /** Every other key carries the shared parameter. */
  lemma JobParamsOther(shared: PyDict.Dict<Value>, keys: seq<string>, names: seq<string>, idName: string,
                       feat: PyDict.Dict<Value>, k: string)
    requires |keys| == |names| && k !in keys
    requires MakeJob(shared, keys, names, idName, feat).Job?
    ensures PyDict.Get(MakeJob(shared, keys, names, idName, feat).params, k) == PyDict.Get(shared, k)
  {
    var item := Collect([], keys, names, feat).value;
    CollectWf([], keys, names, feat);
    PyDict.MergeGet(shared, item, k);
    CollectGetOther([], keys, names, feat, k);
  }
}
