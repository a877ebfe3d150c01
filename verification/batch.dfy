/** The per-feature loop the three processing algorithms share: for each input
    feature, in order, one request with that feature's parameters; the records
    of a successful reply go to the sink and the progress is reported; a
    request failing with `ApiError`, `GenericServerError` or `InvalidKey` is
    reported and the feature skipped; any other error ends the run.
    The client is a function from the feature number, the endpoint path and
    the parameters to a body or an error. */
module Batch {
  import opened Wrappers
  import opened Payload
  import PyDict
  import RequestClient
  import ResponseHandler

  type ClientError = RequestClient.ClientError

  /** The errors the loop catches: reported, then the next feature. */
  predicate Skippable(e: ClientError)
  {
    e.ApiError? || e.GenericServerError? || e.InvalidKey?
  }

  /** What one input feature contributes: the parameters of its request and
      its id value, or the error raised while reading its attributes. */
  datatype Job = Job(params: PyDict.Dict<Value>, idValue: Value) | Broken(error: ClientError)

  /** `feat_in[name]`: the attribute, or a `KeyError` for a name the feature lacks. */
  function Attribute(feat: PyDict.Dict<Value>, name: string): (r: Result<Value, ClientError>)
    ensures r.Success? <==> name in PyDict.Keys(feat)
    ensures r.Success? ==> (name, r.value) in feat
    ensures r.Failure? ==> r.error == RequestClient.KeyError(name)
  {
    match PyDict.Get(feat, name)
    case Some(v) => Success(v)
    case None => Failure(RequestClient.KeyError(name))
  }

  /** `provider['endpoints'][key]`, or `None` when the provider lacks the key. */
  function Endpoint(p: RequestClient.Provider, key: string): Option<string>
  {
    if key in p.endpoints then Some(p.endpoints[key]) else None
  }

  /** `int(100.0 / count * num)`, computed exactly. */
  function Progress(count: nat, num: nat): int
    requires num < count
  {
    (100 * num) / count
  }

  lemma {:induction false} MulMonotone(x: int, y: int, c: nat)
    requires x <= y
    ensures x * c <= y * c
    decreases c
  {
    if c > 0 {
      MulMonotone(x, y, c - 1);
      assert x * c == x * (c - 1) + x;
      assert y * c == y * (c - 1) + y;
    }
  }

  lemma DivMonotone(a: nat, b: nat, c: nat)
    requires a <= b && c > 0
    ensures a / c <= b / c
  {
    var qa, qb := a / c, b / c;
    assert qa * c <= a;
    assert b < qb * c + c;
    assert (qb + 1) * c == qb * c + c;
    if qa > qb {
      MulMonotone(qb + 1, qa, c);
    }
  }

  /** Progress stays below 100 and never goes back. */
  lemma ProgressBounds(count: nat, num: nat, later: nat)
    requires num <= later < count
    ensures 0 <= Progress(count, num) <= Progress(count, later) < 100
  {
    DivMonotone(100 * num, 100 * later, count);
    DivMonotone(100 * later, 100 * count - 1, count);
    var q := (100 * count - 1) / count;
    assert q * count <= 100 * count - 1;
    if q >= 100 {
      MulMonotone(100, q, count);
    }
  }

  /** A report entry for a skipped feature: its number, its id value and the error. */
  datatype Skip = Skip(num: nat, idValue: Value, error: ClientError)

  /** What a run leaves behind: the records added to the sink, the skipped
      features, the progress values reported, the requests sent (endpoint
      path and parameters), and the error that ended the run, if any. */
  datatype Report = Report(
    records: seq<ResponseHandler.Record>, skips: seq<Skip>, progress: seq<int>,
    sent: seq<(string, PyDict.Dict<Value>)>, raised: Option<ClientError>)

  const Empty := Report([], [], [], [], None)

  /** A run `a` followed by a run `b`: `b` happens only when `a` raised nothing. */
  function Then(a: Report, b: Report): (r: Report)
    ensures a.raised.Some? ==> r == a
    ensures a.raised.None? ==> r.raised == b.raised && a.records <= r.records && a.sent <= r.sent
  {
    if a.raised.Some? then a
    else Report(a.records + b.records, a.skips + b.skips, a.progress + b.progress, a.sent + b.sent, b.raised)
  }

  lemma ThenAssociative(a: Report, b: Report, c: Report)
    ensures Then(Then(a, b), c) == Then(a, Then(b, c))
  {
    if a.raised.None? && b.raised.None? {
      assert (a.records + b.records) + c.records == a.records + (b.records + c.records);
      assert (a.skips + b.skips) + c.skips == a.skips + (b.skips + c.skips);
      assert (a.progress + b.progress) + c.progress == a.progress + (b.progress + c.progress);
      assert (a.sent + b.sent) + c.sent == a.sent + (b.sent + c.sent);
    }
  }

  /** A run that stops in its second part keeps what the first part did. */
  lemma ThenStops(a: Report, last: Report, rest: Report)
    requires a.raised.None? && last.raised.Some?
    ensures Then(a, Then(last, rest)) == Then(a, last)
    ensures Then(a, last).raised == last.raised
    ensures Then(a, last).records == a.records + last.records
    ensures Then(a, last).progress == a.progress + last.progress
  {
  }

  /** A run with a skipped iteration in the middle. */
  lemma ThenSkip(a: Report, skip: Skip, request: (string, PyDict.Dict<Value>), b: Report)
    requires a.raised.None?
    ensures Then(a, Then(Report([], [skip], [], [request], None), b)) ==
      Report(a.records + b.records, a.skips + [skip] + b.skips, a.progress + b.progress,
             a.sent + [request] + b.sent, b.raised)
  {
    assert a.records + ([] + b.records) == a.records + b.records;
    assert a.progress + ([] + b.progress) == a.progress + b.progress;
    assert a.skips + ([skip] + b.skips) == a.skips + [skip] + b.skips;
    assert a.sent + ([request] + b.sent) == a.sent + [request] + b.sent;
  }

  /** One iteration of the loop, for feature `num`. `endpoint` is the lookup
      of the algorithm's endpoint in the provider, done inside every iteration:
      a missing endpoint raises `KeyError(key)` at the first feature. */
  function Step(h: ResponseHandler.Handler, key: string, endpoint: Option<string>,
                call: (nat, string, PyDict.Dict<Value>) -> Result<Body, ClientError>,
                job: Job, num: nat, count: nat): (r: Report)
    requires num < count
    ensures |r.progress| <= 1 && |r.skips| <= 1 && |r.sent| <= 1
    ensures (if r.raised.Some? then 1 else 0) + |r.skips| + |r.progress| == 1
    ensures r.raised.None? ==> job.Job? && endpoint.Some? && r.sent == [(endpoint.value, job.params)]
  {
    match job
    case Broken(e) => Report([], [], [], [], Some(e))
    case Job(params, idValue) =>
      if endpoint.None? then Report([], [], [], [], Some(RequestClient.KeyError(key)))
      else
        var sent := [(endpoint.value, params)];
        match call(num, endpoint.value, params)
        case Failure(e) =>
          if Skippable(e) then Report([], [Skip(num, idValue, e)], [], sent, None)
          else Report([], [], [], sent, Some(e))
        case Success(body) =>
          var out := ResponseHandler.GenerateOutFeatures(h, body, idValue);
          Report(out.records, [], if out.raised.None? then [Progress(count, num)] else [], sent, out.raised)
  }

  lemma ThenEmpty(r: Report)
    ensures Then(Empty, r) == r
  {
    assert [] + r.records == r.records && [] + r.skips == r.skips;
    assert [] + r.progress == r.progress && [] + r.sent == r.sent;
  }

  /** The iterations `f(jobs[i], num + i)` one after the other, each only if
      none before raised. */
  function Run(f: (Job, nat) -> Report, jobs: seq<Job>, num: nat): Report
    decreases |jobs|
  {
    if |jobs| == 0 then Empty else Then(f(jobs[0], num), Run(f, jobs[1..], num + 1))
  }

  /** Running a list of features is running its front part and then, unless
      that raised, its back part. */
  lemma {:induction false} RunSplit(f: (Job, nat) -> Report, jobs: seq<Job>, num: nat, k: nat)
    requires k <= |jobs|
    ensures Run(f, jobs, num) == Then(Run(f, jobs[..k], num), Run(f, jobs[k..], num + k))
    decreases k
  {
    if k == 0 {
      assert jobs[..0] == [] && jobs[0..] == jobs;
      ThenEmpty(Run(f, jobs, num));
    } else {
      RunSplit(f, jobs[1..], num + 1, k - 1);
      assert jobs[..k][0] == jobs[0] && jobs[..k][1..] == jobs[1..][..k - 1];
      assert jobs[1..][k - 1..] == jobs[k..];
      ThenAssociative(f(jobs[0], num), Run(f, jobs[1..][..k - 1], num + 1), Run(f, jobs[k..], num + k));
    }
  }

  lemma {:induction false} RunNoRaise(f: (Job, nat) -> Report, jobs: seq<Job>, num: nat)
    requires forall i :: 0 <= i < |jobs| ==> f(jobs[i], num + i).raised.None? && |f(jobs[i], num + i).sent| == 1
    ensures Run(f, jobs, num).raised.None? && |Run(f, jobs, num).sent| == |jobs|
    decreases |jobs|
  {
    if |jobs| > 0 {
      assert f(jobs[0], num + 0).raised.None? && |f(jobs[0], num + 0).sent| == 1;
      forall i | 0 <= i < |jobs| - 1
        ensures f(jobs[1..][i], num + 1 + i).raised.None? && |f(jobs[1..][i], num + 1 + i).sent| == 1
      {
        assert jobs[1..][i] == jobs[i + 1] && num + 1 + i == num + (i + 1);
      }
      RunNoRaise(f, jobs[1..], num + 1);
    }
  }

  lemma RunStops(f: (Job, nat) -> Report, jobs: seq<Job>, num: nat, k: nat)
    requires k < |jobs|
    requires Run(f, jobs[..k], num).raised.None? && f(jobs[k], num + k).raised.Some?
    ensures Run(f, jobs, num) == Then(Run(f, jobs[..k], num), f(jobs[k], num + k))
  {
    RunSplit(f, jobs, num, k);
    assert jobs[k..][0] == jobs[k];
  }

  lemma RunSkip(f: (Job, nat) -> Report, jobs: seq<Job>, num: nat, k: nat,
                skip: Skip, request: (string, PyDict.Dict<Value>))
    requires k < |jobs| && f(jobs[k], num + k) == Report([], [skip], [], [request], None)
    ensures Run(f, jobs, num) ==
      Then(Run(f, jobs[..k], num), Then(Report([], [skip], [], [request], None), Run(f, jobs[k + 1..], num + k + 1)))
  {
    RunSplit(f, jobs, num, k);
    assert jobs[k..][0] == jobs[k] && jobs[k..][1..] == jobs[k + 1..];
  }

  /** Concatenation of a list of lists. */
  function Flatten<T>(xss: seq<seq<T>>): seq<T>
    decreases |xss|
  {
    if |xss| == 0 then [] else xss[0] + Flatten(xss[1..])
  }

  /** Iterations that all go through contribute their records and progress in order. */
  lemma {:induction false} RunCollect(f: (Job, nat) -> Report, jobs: seq<Job>, num: nat,
                                      recs: seq<seq<ResponseHandler.Record>>, prog: seq<int>)
    requires |recs| == |jobs| && |prog| == |jobs|
    requires forall i :: 0 <= i < |jobs| ==>
      f(jobs[i], num + i).raised.None? && f(jobs[i], num + i).skips == [] &&
      f(jobs[i], num + i).records == recs[i] && f(jobs[i], num + i).progress == [prog[i]]
    ensures var r := Run(f, jobs, num);
      r.raised.None? && r.skips == [] && r.records == Flatten(recs) && r.progress == prog
    decreases |jobs|
  {
    if |jobs| > 0 {
      var r0 := f(jobs[0], num + 0);
      assert r0.raised.None? && r0.skips == [] && r0.records == recs[0] && r0.progress == [prog[0]];
      forall i | 0 <= i < |jobs| - 1
        ensures var ri := f(jobs[1..][i], num + 1 + i);
          ri.raised.None? && ri.skips == [] && ri.records == recs[1..][i] && ri.progress == [prog[1..][i]]
      {
        assert jobs[1..][i] == jobs[i + 1] && num + 1 + i == num + (i + 1);
      }
      RunCollect(f, jobs[1..], num + 1, recs[1..], prog[1..]);
      assert [prog[0]] + prog[1..] == prog;
    }
  }

  /** Progress values from iterations that each report nothing or their own
      `Progress(count, num + i)` stay in [Progress(count, num), 100) and never decrease. */
  lemma {:induction false} RunProgress(f: (Job, nat) -> Report, jobs: seq<Job>, num: nat, count: nat)
    requires num + |jobs| <= count
    requires forall i :: 0 <= i < |jobs| ==>
      f(jobs[i], num + i).progress == [] || f(jobs[i], num + i).progress == [Progress(count, num + i)]
    ensures |Run(f, jobs, num).progress| <= |jobs|
    ensures var p := Run(f, jobs, num).progress;
      && (forall i :: 0 <= i < |p| ==> Progress(count, num) <= p[i] < 100)
      && (forall i, j :: 0 <= i < j < |p| ==> p[i] <= p[j])
    decreases |jobs|
  {
    if |jobs| > 0 {
      var first := f(jobs[0], num + 0);
      forall i | 0 <= i < |jobs| - 1
        ensures f(jobs[1..][i], num + 1 + i).progress == [] ||
                f(jobs[1..][i], num + 1 + i).progress == [Progress(count, num + 1 + i)]
      {
        assert jobs[1..][i] == jobs[i + 1] && num + 1 + i == num + (i + 1);
      }
      RunProgress(f, jobs[1..], num + 1, count);
      ProgressBounds(count, num, num);
      var x := Progress(count, num);
      var y := if num + 1 < count then Progress(count, num + 1) else x;
      if num + 1 < count {
        ProgressBounds(count, num, num + 1);
      }
      ProgressThen(first, Run(f, jobs[1..], num + 1), x, y);
    }
  }

  /** One iteration's progress `x` in front of the rest of the run's, all at
      least `y`. */
  lemma ProgressThen(first: Report, rest: Report, x: int, y: int)
    requires first.progress == [] || first.progress == [x]
    requires 0 <= x <= y && x < 100
    requires forall i :: 0 <= i < |rest.progress| ==> y <= rest.progress[i] < 100
    requires forall i, j :: 0 <= i < j < |rest.progress| ==> rest.progress[i] <= rest.progress[j]
    ensures var p := Then(first, rest).progress;
      && (forall i :: 0 <= i < |p| ==> x <= p[i] < 100)
      && (forall i, j :: 0 <= i < j < |p| ==> p[i] <= p[j])
  {
    var p := Then(first, rest).progress;
    if first.raised.Some? {
      assert p == first.progress;
    } else if first.progress == [] {
      assert p == rest.progress;
    } else {
      assert p == [x] + rest.progress;
      PrependSorted(x, rest.progress);
    }
  }

  /** A value no larger than a sorted list's elements keeps it sorted when put in front. */
  lemma PrependSorted(x: int, rest: seq<int>)
    requires forall i :: 0 <= i < |rest| ==> x <= rest[i]
    requires forall i, j :: 0 <= i < j < |rest| ==> rest[i] <= rest[j]
    ensures forall i, j :: 0 <= i < j < |[x] + rest| ==> ([x] + rest)[i] <= ([x] + rest)[j]
  {
    var p := [x] + rest;
    forall i, j | 0 <= i < j < |p|
      ensures p[i] <= p[j]
    {
      assert p[j] == rest[j - 1];
      if i > 0 {
        assert p[i] == rest[i - 1];
      }
    }
  }

  /** Iteration `num` of the loop, out of `count`. */
  function Iteration(h: ResponseHandler.Handler, key: string, endpoint: Option<string>,
                     call: (nat, string, PyDict.Dict<Value>) -> Result<Body, ClientError>,
                     count: nat): (Job, nat) -> Report
  {
    (job: Job, num: nat) => if num < count then Step(h, key, endpoint, call, job, num, count) else Empty
  }

  /** The loop over the features from number `num` on, out of `count`. */
  function Process(h: ResponseHandler.Handler, key: string, endpoint: Option<string>,
                   call: (nat, string, PyDict.Dict<Value>) -> Result<Body, ClientError>,
                   jobs: seq<Job>, num: nat, count: nat): Report
    requires num + |jobs| <= count
  {
    Run(Iteration(h, key, endpoint, call, count), jobs, num)
  }

  /** With no feature raising, the run ends normally and sends one request
      per feature. */
  lemma NoStopNoRaise(h: ResponseHandler.Handler, key: string, endpoint: Option<string>,
                      call: (nat, string, PyDict.Dict<Value>) -> Result<Body, ClientError>,
                      jobs: seq<Job>, num: nat, count: nat)
    requires num + |jobs| <= count
    requires forall i :: 0 <= i < |jobs| ==> Step(h, key, endpoint, call, jobs[i], num + i, count).raised.None?
    ensures Process(h, key, endpoint, call, jobs, num, count).raised.None?
    ensures |Process(h, key, endpoint, call, jobs, num, count).sent| == |jobs|
  {
    var f := Iteration(h, key, endpoint, call, count);
    forall i | 0 <= i < |jobs|
      ensures f(jobs[i], num + i).raised.None? && |f(jobs[i], num + i).sent| == 1
    {
      assert f(jobs[i], num + i) == Step(h, key, endpoint, call, jobs[i], num + i, count);
    }
    RunNoRaise(f, jobs, num);
  }

  /** The first feature whose iteration raises ends the run: the run is the
      features before it followed by that one iteration, so no later feature is
      requested, recorded or reported, and its error is the one raised. The
      records that iteration's generator yielded before raising are already in
      the sink. */
  lemma RaisedByFirstStop(h: ResponseHandler.Handler, key: string, endpoint: Option<string>,
                          call: (nat, string, PyDict.Dict<Value>) -> Result<Body, ClientError>,
                          jobs: seq<Job>, num: nat, count: nat, k: nat)
    requires num + |jobs| <= count && k < |jobs|
    requires forall i :: 0 <= i < k ==> Step(h, key, endpoint, call, jobs[i], num + i, count).raised.None?
    requires Step(h, key, endpoint, call, jobs[k], num + k, count).raised.Some?
    ensures var r := Process(h, key, endpoint, call, jobs, num, count);
      var front := Process(h, key, endpoint, call, jobs[..k], num, count);
      var last := Step(h, key, endpoint, call, jobs[k], num + k, count);
      && r == Then(front, last)
      && r.raised == last.raised
      && front.raised.None?
      && r.records == front.records + last.records && r.progress == front.progress && r.skips == front.skips
      && r.sent == front.sent + last.sent
  {
    forall i | 0 <= i < k
      ensures Step(h, key, endpoint, call, jobs[..k][i], num + i, count).raised.None?
    {
      assert jobs[..k][i] == jobs[i];
    }
    NoStopNoRaise(h, key, endpoint, call, jobs[..k], num, count);
    var f := Iteration(h, key, endpoint, call, count);
    assert f(jobs[k], num + k) == Step(h, key, endpoint, call, jobs[k], num + k, count);
    RunStops(f, jobs, num, k);
  }

  /** A skipped feature leaves only its skip entry and its request: the run
      equals the runs before and after it put together, with no record and no
      progress for it. */
  lemma SkippedFeatureLeavesNoRecords(h: ResponseHandler.Handler, key: string, endpoint: Option<string>,
                                      call: (nat, string, PyDict.Dict<Value>) -> Result<Body, ClientError>,
                                      jobs: seq<Job>, num: nat, count: nat, k: nat)
    requires num + |jobs| <= count && k < |jobs| && jobs[k].Job? && endpoint.Some?
    requires call(num + k, endpoint.value, jobs[k].params).Failure?
    requires Skippable(call(num + k, endpoint.value, jobs[k].params).error)
    ensures var r := Process(h, key, endpoint, call, jobs, num, count);
      var a := Process(h, key, endpoint, call, jobs[..k], num, count);
      var b := Process(h, key, endpoint, call, jobs[k + 1..], num + k + 1, count);
      var e := call(num + k, endpoint.value, jobs[k].params).error;
      a.raised.None? ==>
        r == Report(a.records + b.records, a.skips + [Skip(num + k, jobs[k].idValue, e)] + b.skips,
                    a.progress + b.progress, a.sent + [(endpoint.value, jobs[k].params)] + b.sent, b.raised)
  {
    var f := Iteration(h, key, endpoint, call, count);
    var e := call(num + k, endpoint.value, jobs[k].params).error;
    var skip, request := Skip(num + k, jobs[k].idValue, e), (endpoint.value, jobs[k].params);
    assert f(jobs[k], num + k) == Report([], [skip], [], [request], None);
    RunSkip(f, jobs, num, k, skip, request);
    var a := Run(f, jobs[..k], num);
    if a.raised.None? {
      ThenSkip(a, skip, request, Run(f, jobs[k + 1..], num + k + 1));
    }
  }

  /** Without the endpoint, the first feature that gets as far as its request
      raises `KeyError` on the endpoint key; nothing is sent or recorded. */
  lemma MissingEndpointRaises(h: ResponseHandler.Handler, key: string,
                              call: (nat, string, PyDict.Dict<Value>) -> Result<Body, ClientError>,
                              jobs: seq<Job>, num: nat, count: nat)
    requires num + |jobs| <= count && |jobs| > 0 && jobs[0].Job?
    ensures Process(h, key, None, call, jobs, num, count) == Report([], [], [], [], Some(RequestClient.KeyError(key)))
  {
    var f := Iteration(h, key, None, call, count);
    assert f(jobs[0], num) == Report([], [], [], [], Some(RequestClient.KeyError(key)));
  }

  /** The records of the reply to each feature, in feature order. */
  function Replies(h: ResponseHandler.Handler, path: string,
                   call: (nat, string, PyDict.Dict<Value>) -> Result<Body, ClientError>,
                   jobs: seq<Job>, num: nat): (rs: seq<seq<ResponseHandler.Record>>)
    ensures |rs| == |jobs|
  {
    seq(|jobs|, i requires 0 <= i < |jobs| =>
      match jobs[i]
      case Job(params, idValue) =>
        (match call(num + i, path, params)
         case Success(body) => ResponseHandler.GenerateOutFeatures(h, body, idValue).records
         case Failure(_) => [])
      case Broken(_) => [])
  }

  /** An iteration whose request succeeds skips nothing and records what the
      generator yields for the reply; it reports its progress and goes on
      unless the generator raised, and then it raises the same error. */
  lemma SucceedingIteration(h: ResponseHandler.Handler, key: string, endpoint: Option<string>,
                            call: (nat, string, PyDict.Dict<Value>) -> Result<Body, ClientError>,
                            count: nat, job: Job, num: nat)
    requires num < count && job.Job? && endpoint.Some? && call(num, endpoint.value, job.params).Success?
    ensures var r := Iteration(h, key, endpoint, call, count)(job, num);
      var out := ResponseHandler.GenerateOutFeatures(h, call(num, endpoint.value, job.params).value, job.idValue);
      && r.raised == out.raised && r.skips == [] && r.records == out.records
      && r.progress == (if out.raised.None? then [Progress(count, num)] else [])
      && r.sent == [(endpoint.value, job.params)]
  {
    assert Iteration(h, key, endpoint, call, count)(job, num) == Step(h, key, endpoint, call, job, num, count);
  }

  /** Every iteration of an all-successful loop adds its reply's records and
      its progress value, and skips and raises nothing. */
  lemma SucceedingIterations(h: ResponseHandler.Handler, key: string, endpoint: Option<string>,
                             call: (nat, string, PyDict.Dict<Value>) -> Result<Body, ClientError>,
                             jobs: seq<Job>, num: nat, count: nat)
    requires num + |jobs| <= count && endpoint.Some? && ResponseHandler.Fits(h)
    requires forall i :: 0 <= i < |jobs| ==> jobs[i].Job? && call(num + i, endpoint.value, jobs[i].params).Success?
    ensures forall i :: 0 <= i < |jobs| ==>
      var r := Iteration(h, key, endpoint, call, count)(jobs[i], num + i);
      r.raised.None? && r.skips == [] && r.progress == [Progress(count, num + i)]
      && r.records == Replies(h, endpoint.value, call, jobs, num)[i]
  {
    forall i | 0 <= i < |jobs|
      ensures var r := Iteration(h, key, endpoint, call, count)(jobs[i], num + i);
        r.raised.None? && r.skips == [] && r.progress == [Progress(count, num + i)]
        && r.records == Replies(h, endpoint.value, call, jobs, num)[i]
    {
      SucceedingIteration(h, key, endpoint, call, count, jobs[i], num + i);
      ResponseHandler.GenerateOutcome(h, call(num + i, endpoint.value, jobs[i].params).value, jobs[i].idValue);
    }
  }

  /** When every request succeeds and the handler's fields hold every name
      it sets, the run raises nothing, skips nothing, the sink receives every
      reply's records in feature order, and the progress after feature `i` is
      `Progress(count, num + i)`. */
  lemma AllSucceed(h: ResponseHandler.Handler, key: string, endpoint: Option<string>,
                   call: (nat, string, PyDict.Dict<Value>) -> Result<Body, ClientError>,
                   jobs: seq<Job>, num: nat, count: nat)
    requires num + |jobs| <= count && endpoint.Some? && ResponseHandler.Fits(h)
    requires forall i :: 0 <= i < |jobs| ==> jobs[i].Job? && call(num + i, endpoint.value, jobs[i].params).Success?
    ensures var r := Process(h, key, endpoint, call, jobs, num, count);
      && r.raised.None? && r.skips == []
      && r.records == Flatten(Replies(h, endpoint.value, call, jobs, num))
      && |r.progress| == |jobs|
      && (forall i :: 0 <= i < |jobs| ==> r.progress[i] == Progress(count, num + i))
  {
    var f := Iteration(h, key, endpoint, call, count);
    var recs := Replies(h, endpoint.value, call, jobs, num);
    var prog := seq(|jobs|, i requires 0 <= i < |jobs| => Progress(count, num + i));
    SucceedingIterations(h, key, endpoint, call, jobs, num, count);
    RunCollect(f, jobs, num, recs, prog);
  }

  /** A reply whose records fail to build ends the run: the error the
      generator raised (a `KeyError` from `setAttribute`) is not caught, the
      records yielded before it stay in the sink, and no progress is reported
      for that feature. */
  lemma GenerationErrorRaises(h: ResponseHandler.Handler, key: string, endpoint: Option<string>,
                              call: (nat, string, PyDict.Dict<Value>) -> Result<Body, ClientError>,
                              jobs: seq<Job>, num: nat, count: nat, k: nat)
    requires num + |jobs| <= count && k < |jobs| && jobs[k].Job? && endpoint.Some?
    requires forall i :: 0 <= i < k ==> Step(h, key, endpoint, call, jobs[i], num + i, count).raised.None?
    requires call(num + k, endpoint.value, jobs[k].params).Success?
    requires ResponseHandler.GenerateOutFeatures(h, call(num + k, endpoint.value, jobs[k].params).value, jobs[k].idValue).raised.Some?
    ensures var r := Process(h, key, endpoint, call, jobs, num, count);
      var front := Process(h, key, endpoint, call, jobs[..k], num, count);
      var out := ResponseHandler.GenerateOutFeatures(h, call(num + k, endpoint.value, jobs[k].params).value, jobs[k].idValue);
      && r.raised == out.raised
      && r.records == front.records + out.records
      && r.progress == front.progress && r.skips == front.skips
      && r.sent == front.sent + [(endpoint.value, jobs[k].params)]
  {
    SucceedingIteration(h, key, endpoint, call, count, jobs[k], num + k);
    assert Iteration(h, key, endpoint, call, count)(jobs[k], num + k) == Step(h, key, endpoint, call, jobs[k], num + k, count);
    RaisedByFirstStop(h, key, endpoint, call, jobs, num, count, k);
  }

  /** A request failing with an error the loop does not catch ends the run
      with that error, right after sending that feature's request. */
  lemma UncaughtErrorRaises(h: ResponseHandler.Handler, key: string, endpoint: Option<string>,
                            call: (nat, string, PyDict.Dict<Value>) -> Result<Body, ClientError>,
                            jobs: seq<Job>, num: nat, count: nat, k: nat)
    requires num + |jobs| <= count && k < |jobs| && jobs[k].Job? && endpoint.Some?
    requires forall i :: 0 <= i < k ==> Step(h, key, endpoint, call, jobs[i], num + i, count).raised.None?
    requires call(num + k, endpoint.value, jobs[k].params).Failure?
    requires !Skippable(call(num + k, endpoint.value, jobs[k].params).error)
    ensures var r := Process(h, key, endpoint, call, jobs, num, count);
      var front := Process(h, key, endpoint, call, jobs[..k], num, count);
      && r.raised == Some(call(num + k, endpoint.value, jobs[k].params).error)
      && r.records == front.records && r.progress == front.progress && r.skips == front.skips
      && r.sent == front.sent + [(endpoint.value, jobs[k].params)]
  {
    var e := call(num + k, endpoint.value, jobs[k].params).error;
    assert Step(h, key, endpoint, call, jobs[k], num + k, count) == Report([], [], [], [(endpoint.value, jobs[k].params)], Some(e));
    RaisedByFirstStop(h, key, endpoint, call, jobs, num, count, k);
  }

  /** Every reported progress value lies in [Progress(count, num), 100), and
      they never decrease. */
  lemma ProgressMonotone(h: ResponseHandler.Handler, key: string, endpoint: Option<string>,
                         call: (nat, string, PyDict.Dict<Value>) -> Result<Body, ClientError>,
                         jobs: seq<Job>, num: nat, count: nat)
    requires num + |jobs| <= count
    ensures var p := Process(h, key, endpoint, call, jobs, num, count).progress;
      && (forall i :: 0 <= i < |p| ==> Progress(count, num) <= p[i] < 100)
      && (forall i, j :: 0 <= i < j < |p| ==> p[i] <= p[j])
  {
    var f := Iteration(h, key, endpoint, call, count);
    forall i | 0 <= i < |jobs|
      ensures f(jobs[i], num + i).progress == [] || f(jobs[i], num + i).progress == [Progress(count, num + i)]
    {
      assert f(jobs[i], num + i) == Step(h, key, endpoint, call, jobs[i], num + i, count);
    }
    RunProgress(f, jobs, num, count);
  }
}
