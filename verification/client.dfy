/** The request client of `core/client.py`: authenticated query building, the
    retry time budget, classification of HTTP replies into typed errors, the
    bounded window of send times, and the back-off and retry on HTTP 429.
    The clock and the server are inputs: every attempt is given an `Exchange`
    holding the clock reading before dispatch, the reply, and the clock reading
    after the reply. */
module RequestClient {
  import opened Wrappers
  import opened Payload
  import PyDict
  import Strings

  /** A provider entry of the configuration. */
  datatype Provider = Provider(
    name: string, baseUrl: string, key: string, limit: nat, unit: string,
    endpoints: map<string, string>)

  /** What `request` can raise: the plugin's typed errors, and the Python
      runtime errors that escape its code paths. */
  datatype ClientError =
    | Timeout
    | OverQueryLimit(status: string, message: string)
    | ApiError(status: string, message: string)
    | InvalidKey(status: string, message: string)
    | GenericServerError(code: int, body: Body)
    | KeyError(key: string)
    | IndexError
    | AttributeError(name: string)
    | ValueError

  /** `params` as the caller passes it: a dict, or a list of key/value tuples. */
  datatype Params = Mapping(d: PyDict.Dict<Value>) | Pairs(pairs: seq<(string, Value)>)

  predicate WellFormed(p: Params)
  {
    p.Mapping? ==> PyDict.Wf(p.d)
  }

  function Count(p: Params): nat
  {
    if p.Mapping? then |p.d| else |p.pairs|
  }

  /** A request URL: base, path and the ordered query pairs handed to the
      encoder (percent-encoding is not modelled). */
  datatype Url = Url(base: string, path: string, query: seq<(string, Value)>)

  /** The client: provider settings, retry budget in seconds, the window of send
      times (a deque whose `maxlen` is the provider limit), the last URL built
      and the last warnings seen. */
  datatype Client = Client(
    key: string, baseUrl: string, limit: nat, unit: string, retryTimeout: real,
    sentTimes: seq<real>, url: Option<Url>, warnings: Option<seq<string>>)

  predicate Valid(c: Client)
  {
    |c.sentTimes| <= c.limit
  }

  /** The settings a request never changes. */
  predicate SameConfig(a: Client, b: Client)
  {
    a.key == b.key && a.baseUrl == b.baseUrl && a.limit == b.limit
    && a.unit == b.unit && a.retryTimeout == b.retryTimeout
  }

  /** `Client.__init__`: the default budget is 60 seconds; the window starts empty. */
  function NewClient(p: Provider, retryTimeout: real := 60.0): (c: Client)
    ensures Valid(c) && c.sentTimes == [] && c.url.None? && c.warnings.None?
    ensures c.key == p.key && c.baseUrl == p.baseUrl && c.limit == p.limit && c.unit == p.unit
    ensures c.retryTimeout == retryTimeout
  {
    Client(p.key, p.baseUrl, p.limit, p.unit, retryTimeout, [], None, None)
  }

  /** The query handed to the encoder and the caller's `params` afterwards. */
  datatype Authed = Authed(query: seq<(string, Value)>, params: Params)

  function KeyPairs(key: string): seq<(string, Value)>
  {
    if key != "" then [("api_key", Str(key))] else []
  }

  /** `_generate_auth_url`: a dict becomes its items sorted by key; a list keeps
      the caller's order and is extended in place; the `api_key` pair goes last
      exactly when the key is non-empty. The contents of the dict part are
      stated by `AuthQueryContents`. */
  function AuthQuery(key: string, params: Params): (r: Authed)
    requires WellFormed(params)
    ensures |r.query| == Count(params) + (if key != "" then 1 else 0)
    ensures key != "" ==> r.query[|r.query| - 1] == ("api_key", Str(key))
    ensures params.Mapping? ==> r.params == params
    ensures params.Pairs? ==> r.params == Pairs(r.query)
  {
    match params
    case Mapping(d) =>
      var items := PyDict.SortItems(d);
      assert |items| == |multiset(items)| == |multiset(d)| == |d|;
      Authed(items + KeyPairs(key), params)
    case Pairs(p) => Authed(p + KeyPairs(key), Pairs(p + KeyPairs(key)))
  }

  /** The query starts with the dict's items sorted by key (the same pairs,
      reordered), or with the caller's list of pairs unchanged. */
  lemma AuthQueryContents(key: string, params: Params)
    requires WellFormed(params)
    ensures var q := AuthQuery(key, params).query;
      (params.Mapping? ==>
         PyDict.SortedByKey(q[..|params.d|]) && multiset(q[..|params.d|]) == multiset(params.d))
      && (params.Pairs? ==> q[..|params.pairs|] == params.pairs)
  {
    var q := AuthQuery(key, params).query;
    match params
    case Mapping(d) =>
      assert q[..|d|] == PyDict.SortItems(d);
    case Pairs(p) =>
      assert q[..|p|] == p;
  }

  /** A dict's query depends only on its contents, not on insertion order. */
  lemma AuthQueryCanonical(key: string, d1: PyDict.Dict<Value>, d2: PyDict.Dict<Value>)
    requires PyDict.Wf(d1) && PyDict.Wf(d2)
    requires forall k :: PyDict.Get(d1, k) == PyDict.Get(d2, k)
    ensures AuthQuery(key, Mapping(d1)).query == AuthQuery(key, Mapping(d2)).query
  {
    PyDict.SortItemsCanonical(d1, d2);
  }

  /** A list of pairs is extended in place, so reusing it (as the 429 retry
      does) sends the `api_key` pair twice. */
  lemma PairsRetryRepeatsKey(key: string, p: seq<(string, Value)>)
    requires key != ""
    ensures AuthQuery(key, AuthQuery(key, Pairs(p)).params).query
            == p + [("api_key", Str(key)), ("api_key", Str(key))]
  {
  }

  /** `_get_body`: the HTTP status decides the outcome (see `GetBodyClassifies`). */
  function GetBody(resp: HttpResponse): (r: Result<Body, ClientError>)
    ensures r.Success? <==> resp.status == 200
    ensures r.Success? ==> r.value == resp.body
  {
    var status := resp.status;
    if status == 429 || status == 400 then
      match resp.body.geocoding
      case None => Failure(KeyError("geocoding"))
      case Some(g) =>
        match g.errors
        case None => Failure(KeyError("errors"))
        case Some(errs) =>
          var message := Strings.Join(errs, "\n");
          if status == 429 then Failure(OverQueryLimit("429", message))
          else Failure(ApiError("400", message))
    else if status == 403 then Failure(InvalidKey("403", "Invalid key specified or quota exceeded."))
    else if status != 200 then Failure(GenericServerError(status, resp.body))
    else Success(resp.body)
  }

  /** The error each status maps to: 429 and 400 carry the server's error lines
      joined by newlines (a reply without them raises KeyError), 403 a fixed
      message, every other non-200 status the status code and the body. */
  lemma GetBodyClassifies(resp: HttpResponse)
    ensures resp.status == 403 ==>
      GetBody(resp) == Failure(InvalidKey("403", "Invalid key specified or quota exceeded."))
    ensures resp.status !in {200, 400, 403, 429} ==>
      GetBody(resp) == Failure(GenericServerError(resp.status, resp.body))
    ensures resp.status == 429 || resp.status == 400 ==>
      match resp.body.geocoding
      case None => GetBody(resp) == Failure(KeyError("geocoding"))
      case Some(g) =>
        if g.errors.None? then GetBody(resp) == Failure(KeyError("errors"))
        else if resp.status == 429 then
          GetBody(resp) == Failure(OverQueryLimit("429", Strings.Join(g.errors.value, "\n")))
        else GetBody(resp) == Failure(ApiError("400", Strings.Join(g.errors.value, "\n")))
  {
  }

  /** Only a 429 reply carrying its error list is an over-query-limit error. */
  lemma OverQueryLimitOnlyFor429(resp: HttpResponse)
    ensures IsOverQueryLimit(resp) <==>
      resp.status == 429 && resp.body.geocoding.Some? && resp.body.geocoding.value.errors.Some?
  {
  }

  /** A 429 reply triggers the back-off exactly when it carries its error list. */
  predicate IsOverQueryLimit(resp: HttpResponse)
  {
    GetBody(resp).Failure? && GetBody(resp).error.OverQueryLimit?
  }

  /** `deque.append` on a deque with `maxlen == limit`: the newest `limit`
      entries are kept, the oldest falls out (see `PushKeepsNewest`). */
  function Push(window: seq<real>, t: real, limit: nat): (r: seq<real>)
    ensures |r| == if |window| < limit then |window| + 1 else limit
  {
    var w := window + [t];
    if |w| <= limit then w else w[|w| - limit..]
  }

  /** The appended time is the newest entry, and the entries kept from the old
      window are its newest ones, in order. */
  lemma PushKeepsNewest(window: seq<real>, t: real, limit: nat)
    ensures var r := Push(window, t, limit);
      (limit > 0 ==> r[|r| - 1] == t)
      && forall i :: 0 <= i < |r| - 1 ==> r[i] == window[|window| - (|r| - 1) + i]
  {
  }

  /** The window length in seconds: 60 for "minute", 1 for any other unit. */
  function Interval(unit: string): real
  {
    if unit == "minute" then 60.0 else 1.0
  }

  /** The wait computed on a 429, as written: `interval - (now - sent_times[0])`,
      which raises IndexError on an empty window. */
  function BackoffAsWritten(window: seq<real>, now: real, unit: string): (r: Result<real, ClientError>)
    ensures r.Failure? <==> |window| == 0
    ensures r.Failure? ==> r.error == IndexError
    ensures r.Success? ==> r.value + (now - window[0]) == Interval(unit)
  {
    if |window| == 0 then Failure(IndexError) else Success(Interval(unit) - (now - window[0]))
  }

  /** `time.sleep(d)`, which raises ValueError for a negative length. */
  function SleepAsWritten(d: real): (r: Outcome<ClientError>)
    ensures r.Fail? <==> d < 0.0
  {
    if d < 0.0 then Fail(ValueError) else Pass
  }

  /** The wait computed on a 429, corrected: a full interval when no send is
      recorded, and never negative. */
  function Backoff(window: seq<real>, now: real, unit: string): (r: real)
    ensures r >= 0.0
    ensures |window| == 0 ==> r == Interval(unit)
    ensures |window| > 0 && window[0] <= now ==> r <= Interval(unit)
    ensures BackoffAsWritten(window, now, unit).Success? && BackoffAsWritten(window, now, unit).value >= 0.0
            ==> r == BackoffAsWritten(window, now, unit).value
  {
    if |window| == 0 then Interval(unit)
    else
      var d := Interval(unit) - (now - window[0]);
      if d < 0.0 then 0.0 else d
  }

  /** The as-written computation fails where the corrected one returns a wait:
      on an empty window, and once the oldest send is more than an interval old. */
  lemma BackoffAsWrittenFails()
    ensures BackoffAsWritten([], 5.0, "second") == Failure(IndexError)
    ensures Backoff([], 5.0, "second") == 1.0
    ensures BackoffAsWritten([0.0], 2.0, "second") == Success(-1.0)
    ensures SleepAsWritten(-1.0) == Fail(ValueError)
    ensures Backoff([0.0], 2.0, "second") == 0.0
  {
  }

  /** One clock-and-reply step of the environment. */
  datatype Exchange = Exchange(now: real, response: HttpResponse, after: real)

  /** A request put on the wire. */
  datatype Dispatched = Get(url: Url) | Post(url: Url, json: PyDict.Dict<Value>)

  /** How one attempt ends: `request` returns or raises, or it retries after a
      429 with a wait, the client state and the (possibly extended) params. */
  datatype Step =
    | Stop(client: Client, result: Result<Body, ClientError>)
    | Retry(client: Client, sleepFor: real, params: Params)

  datatype AttemptResult = AttemptResult(step: Step, sent: Option<Dispatched>)

  /** The time the retry budget is measured from: the caller's
      `first_request_time`, or the first clock reading. */
  function Anchor(first: Option<real>, env: seq<Exchange>): real
    requires first.Some? || |env| > 0
  {
    if first.Some? then first.value else env[0].now
  }

  /** One pass through the body of `request` (the 429 path with the signal
      name and the back-off corrected). */
  function Attempt(c: Client, path: string, params: Params, anchor: real,
                   post: Option<PyDict.Dict<Value>>, ex: Exchange): (r: AttemptResult)
    requires Valid(c) && WellFormed(params)
    ensures Valid(r.step.client) && SameConfig(c, r.step.client)
    ensures r.step.Retry? ==> WellFormed(r.step.params)
    // the budget is checked before anything is built or sent
    ensures r.sent.None? <==> ex.now - anchor > c.retryTimeout
    ensures r.sent.None? <==> r.step.Stop? && r.step.result == Failure(Timeout)
    ensures r.sent.None? ==> r.step.client == c
    // the URL is recorded before dispatch
    ensures r.sent.Some? ==> r.sent.value.url == Url(c.baseUrl, path, AuthQuery(c.key, params).query)
    ensures r.sent.Some? ==> (r.sent.value.Post? <==> post.Some?)
    ensures r.sent.Some? ==> r.step.client.url == Some(r.sent.value.url)
    // only a 429 with its error list is retried, after the corrected wait
    ensures r.step.Retry? <==> r.sent.Some? && IsOverQueryLimit(ex.response)
    ensures r.step.Retry? ==> r.step.sleepFor == Backoff(c.sentTimes, ex.after, c.unit)
    ensures r.step.Retry? ==> r.step.params == AuthQuery(c.key, params).params
    // only a 200 reply records a send time
    ensures r.step.client.sentTimes ==
      if r.sent.Some? && ex.response.status == 200 then Push(c.sentTimes, ex.after, c.limit) else c.sentTimes
    // warnings change only on success
    ensures r.step.Stop? && r.step.result.Success? ==>
      ex.response.status == 200 && r.step.result.value == ex.response.body
      && ex.response.body.geocoding.Some?
      && r.step.client.warnings == ex.response.body.geocoding.value.warnings
    ensures !(r.step.Stop? && r.step.result.Success?) ==> r.step.client.warnings == c.warnings
    // other errors come from the reply, unchanged
    ensures r.step.Stop? && r.step.result.Failure? && r.sent.Some? ==>
      if ex.response.status == 200 then r.step.result.error == KeyError("geocoding")
      else r.step.result == GetBody(ex.response)
  {
    if ex.now - anchor > c.retryTimeout then AttemptResult(Stop(c, Failure(Timeout)), None)
    else
      var authed := AuthQuery(c.key, params);
      var url := Url(c.baseUrl, path, authed.query);
      var c1 := c.(url := Some(url));
      var sent := if post.Some? then Post(url, post.value) else Get(url);
      match GetBody(ex.response)
      case Success(body) =>
        var c2 := c1.(sentTimes := Push(c1.sentTimes, ex.after, c.limit));
        if body.geocoding.None? then AttemptResult(Stop(c2, Failure(KeyError("geocoding"))), Some(sent))
        else AttemptResult(Stop(c2.(warnings := body.geocoding.value.warnings), Success(body)), Some(sent))
      case Failure(e) =>
        if e.OverQueryLimit? then
          AttemptResult(Retry(c1, Backoff(c1.sentTimes, ex.after, c.unit), authed.params), Some(sent))
        else AttemptResult(Stop(c1, Failure(e)), Some(sent))
  }

  /** One call of `request` as written. On a 429 the handler reads
      `sent_times[0]` (IndexError on an empty window) and then emits on
      `overQuerylimit`, a name the class never declares (it declares
      `overQueryLimit`), so the call raises AttributeError and never sleeps
      or retries. Every other reply is handled as in `Attempt`. */
  function RequestAsWritten(c: Client, path: string, params: Params, first: Option<real>,
                            post: Option<PyDict.Dict<Value>>, ex: Exchange): (r: AttemptResult)
    requires Valid(c) && WellFormed(params)
    ensures r.step.Stop?
    ensures r.sent.Some? && IsOverQueryLimit(ex.response) ==>
      r.step.result == Failure(if |c.sentTimes| == 0 then IndexError else AttributeError("overQuerylimit"))
    ensures !IsOverQueryLimit(ex.response) ==>
      r == Attempt(c, path, params, Anchor(first, [ex]), post, ex)
  {
    var a := Attempt(c, path, params, Anchor(first, [ex]), post, ex);
    match a.step
    case Stop(_, _) => a
    case Retry(c1, _, _) =>
      var err := if BackoffAsWritten(c1.sentTimes, ex.after, c.unit).Failure? then IndexError
                 else AttributeError("overQuerylimit");
      AttemptResult(Stop(c1, Failure(err)), a.sent)
  }


  /** How a corrected `request` ends; `Unfinished` when the supplied exchanges
      run out while it is still retrying. */
  datatype Completion = Returned(body: Body) | Raised(error: ClientError) | Unfinished

  /** Where a corrected `request` has got to: the client, how it ended, what it
      put on the wire and the waits it announced on the over-query-limit signal. */
  datatype Run = Run(client: Client, outcome: Completion, sent: seq<Dispatched>, notices: seq<real>)

  /** `request` with the 429 path corrected: the retry re-enters with the same
      anchor (the caller's `first_request_time`, see `Anchor`), so the budget
      check bounds the retries. One exchange is consumed per attempt. */
  function Request(c: Client, path: string, params: Params, anchor: real,
                   post: Option<PyDict.Dict<Value>>, env: seq<Exchange>): (r: Run)
    requires Valid(c) && WellFormed(params)
    ensures Valid(r.client) && SameConfig(c, r.client)
    ensures |r.notices| <= |r.sent| <= |r.notices| + 1 && |r.sent| <= |env|
    ensures r.outcome.Unfinished? <==> |r.notices| == |env|
    decreases |env|
  {
    if |env| == 0 then Run(c, Unfinished, [], [])
    else
      var a := Attempt(c, path, params, anchor, post, env[0]);
      match a.step
      case Stop(c1, result) =>
        var sent := if a.sent.Some? then [a.sent.value] else [];
        Run(c1, if result.Success? then Returned(result.value) else Raised(result.error), sent, [])
      case Retry(c1, wait, params1) =>
        var rest := Request(c1, path, params1, anchor, post, env[1..]);
        Run(rest.client, rest.outcome, [a.sent.value] + rest.sent, [wait] + rest.notices)
  }

  /** One step of `Request` on a non-empty list of exchanges, unfolded: a
      stopping attempt ends the run, a retry prepends its dispatch and wait to
      the rest of the run. */
  predicate Unfolds(c: Client, path: string, params: Params, anchor: real,
                    post: Option<PyDict.Dict<Value>>, env: seq<Exchange>, a: AttemptResult, r: Run)
    requires Valid(c) && WellFormed(params) && |env| > 0
  {
    match a.step
    case Stop(c1, result) =>
      r.client == c1 && r.notices == []
      && r.sent == (if a.sent.Some? then [a.sent.value] else [])
      && r.outcome == (if result.Success? then Returned(result.value) else Raised(result.error))
    case Retry(c1, wait, params1) =>
      a.sent.Some? && Valid(c1) && WellFormed(params1)
      && var rest := Request(c1, path, params1, anchor, post, env[1..]);
      r == Run(rest.client, rest.outcome, [a.sent.value] + rest.sent, [wait] + rest.notices)
  }

  lemma RequestStep(c: Client, path: string, params: Params, anchor: real,
                    post: Option<PyDict.Dict<Value>>, env: seq<Exchange>)
    requires Valid(c) && WellFormed(params) && |env| > 0
    ensures Unfolds(c, path, params, anchor, post, env, Attempt(c, path, params, anchor, post, env[0]),
                    Request(c, path, params, anchor, post, env))
  {
  }

  /** Every dispatched attempt started inside the budget. */
  predicate WithinBudget(c: Client, anchor: real, env: seq<Exchange>, sent: seq<Dispatched>)
  {
    |sent| <= |env| && forall j :: 0 <= j < |sent| ==> env[j].now - anchor <= c.retryTimeout
  }

  /** Every announced wait followed an over-query-limit reply and was computed
      from the client's window. */
  predicate WaitsFromWindow(c: Client, env: seq<Exchange>, notices: seq<real>)
  {
    |notices| <= |env|
    && forall j :: 0 <= j < |notices| ==>
         IsOverQueryLimit(env[j].response) && notices[j] == Backoff(c.sentTimes, env[j].after, c.unit)
  }

  /** Every dispatched attempt used the caller's method and, for dict params,
      the query built from them on the first attempt. */
  predicate SameRequests(c: Client, path: string, params: Params, post: Option<PyDict.Dict<Value>>,
                         sent: seq<Dispatched>)
    requires WellFormed(params)
  {
    forall j :: 0 <= j < |sent| ==>
      (sent[j].Post? <==> post.Some?)
      && (params.Mapping? ==> sent[j].url == Url(c.baseUrl, path, AuthQuery(c.key, params).query))
  }

  lemma WithinBudgetPrepend(c: Client, c1: Client, anchor: real, env: seq<Exchange>,
                            x: Dispatched, rest: seq<Dispatched>)
    requires |env| > 0 && c1.retryTimeout == c.retryTimeout
    requires env[0].now - anchor <= c.retryTimeout
    requires WithinBudget(c1, anchor, env[1..], rest)
    ensures WithinBudget(c, anchor, env, [x] + rest)
  {
    assert forall j :: 1 <= j < |rest| + 1 ==> env[j] == env[1..][j - 1];
  }

  lemma WaitsFromWindowPrepend(c: Client, c1: Client, env: seq<Exchange>, w: real, rest: seq<real>)
    requires |env| > 0 && c1.sentTimes == c.sentTimes && c1.unit == c.unit
    requires IsOverQueryLimit(env[0].response) && w == Backoff(c.sentTimes, env[0].after, c.unit)
    requires WaitsFromWindow(c1, env[1..], rest)
    ensures WaitsFromWindow(c, env, [w] + rest)
  {
    assert forall j :: 1 <= j < |rest| + 1 ==> env[j] == env[1..][j - 1];
  }

  lemma SameRequestsPrepend(c: Client, c1: Client, path: string, params: Params, params1: Params,
                            post: Option<PyDict.Dict<Value>>, x: Dispatched, rest: seq<Dispatched>)
    requires WellFormed(params) && WellFormed(params1)
    requires c1.baseUrl == c.baseUrl && c1.key == c.key
    requires params.Mapping? ==> params1 == params
    requires (x.Post? <==> post.Some?)
    requires params.Mapping? ==> x.url == Url(c.baseUrl, path, AuthQuery(c.key, params).query)
    requires SameRequests(c1, path, params1, post, rest)
    ensures SameRequests(c, path, params, post, [x] + rest)
  {
  }

  /** Every attempt goes out inside the budget. */
  lemma {:induction false} RequestWithinBudget(c: Client, path: string, params: Params, anchor: real,
                                               post: Option<PyDict.Dict<Value>>, env: seq<Exchange>)
    requires Valid(c) && WellFormed(params)
    ensures WithinBudget(c, anchor, env, Request(c, path, params, anchor, post, env).sent)
    decreases |env|
  {
    if |env| > 0 {
      var a := Attempt(c, path, params, anchor, post, env[0]);
      RequestStep(c, path, params, anchor, post, env);
      if a.step.Retry? {
        var rest := Request(a.step.client, path, a.step.params, anchor, post, env[1..]);
        RequestWithinBudget(a.step.client, path, a.step.params, anchor, post, env[1..]);
        WithinBudgetPrepend(c, a.step.client, anchor, env, a.sent.value, rest.sent);
      }
    }
  }

  /** A run ends in Timeout exactly when, after its retries, the next attempt
      would start outside the budget. */
  predicate TimesOutExactly(c: Client, anchor: real, env: seq<Exchange>, r: Run)
  {
    r.outcome == Raised(Timeout) <==>
      |r.sent| == |r.notices| < |env| && env[|r.sent|].now - anchor > c.retryTimeout
  }

  lemma TimesOutExactlyPrepend(c: Client, c1: Client, anchor: real, env: seq<Exchange>,
                               x: Dispatched, w: real, rest: Run)
    requires |env| > 0 && c1.retryTimeout == c.retryTimeout
    requires TimesOutExactly(c1, anchor, env[1..], rest)
    ensures TimesOutExactly(c, anchor, env, Run(rest.client, rest.outcome, [x] + rest.sent, [w] + rest.notices))
  {
    if |rest.sent| < |env| - 1 {
      assert env[|rest.sent| + 1] == env[1..][|rest.sent|];
    }
  }

  /** `request` raises Timeout exactly when the attempt after the last retry
      would start outside the budget. */
  lemma {:induction false} RequestTimeout(c: Client, path: string, params: Params, anchor: real,
                                          post: Option<PyDict.Dict<Value>>, env: seq<Exchange>)
    requires Valid(c) && WellFormed(params)
    ensures TimesOutExactly(c, anchor, env, Request(c, path, params, anchor, post, env))
    decreases |env|
  {
    if |env| > 0 {
      var a := Attempt(c, path, params, anchor, post, env[0]);
      RequestStep(c, path, params, anchor, post, env);
      if a.step.Retry? {
        var rest := Request(a.step.client, path, a.step.params, anchor, post, env[1..]);
        RequestTimeout(a.step.client, path, a.step.params, anchor, post, env[1..]);
        TimesOutExactlyPrepend(c, a.step.client, anchor, env, a.sent.value, a.step.sleepFor, rest);
      }
    }
  }

  /** Only replies classified as over-query-limit are retried, and each wait is
      computed from the window as it was on entry (a 429 records no send). */
  lemma {:induction false} RequestRetriesOnlyOverLimit(c: Client, path: string, params: Params, anchor: real,
                                                       post: Option<PyDict.Dict<Value>>, env: seq<Exchange>)
    requires Valid(c) && WellFormed(params)
    ensures WaitsFromWindow(c, env, Request(c, path, params, anchor, post, env).notices)
    decreases |env|
  {
    if |env| > 0 {
      var a := Attempt(c, path, params, anchor, post, env[0]);
      RequestStep(c, path, params, anchor, post, env);
      if a.step.Retry? {
        var rest := Request(a.step.client, path, a.step.params, anchor, post, env[1..]);
        RequestRetriesOnlyOverLimit(a.step.client, path, a.step.params, anchor, post, env[1..]);
        WaitsFromWindowPrepend(c, a.step.client, env, a.step.sleepFor, rest.notices);
      }
    }
  }

  /** Every attempt uses the caller's method; for dict params every attempt
      sends the same query, while a list of pairs grows on each retry (see
      `PairsRetryRepeatsKey`). */
  lemma {:induction false} RequestDispatches(c: Client, path: string, params: Params, anchor: real,
                                             post: Option<PyDict.Dict<Value>>, env: seq<Exchange>)
    requires Valid(c) && WellFormed(params)
    ensures SameRequests(c, path, params, post, Request(c, path, params, anchor, post, env).sent)
    decreases |env|
  {
    if |env| > 0 {
      var a := Attempt(c, path, params, anchor, post, env[0]);
      RequestStep(c, path, params, anchor, post, env);
      if a.step.Retry? {
        var rest := Request(a.step.client, path, a.step.params, anchor, post, env[1..]);
        RequestDispatches(a.step.client, path, a.step.params, anchor, post, env[1..]);
        SameRequestsPrepend(c, a.step.client, path, params, a.step.params, post, a.sent.value, rest.sent);
      }
    }
  }

  /** The client of a run holds the URL of its last dispatched attempt. */
  predicate HoldsLastUrl(c: Client, r: Run)
  {
    r.client.url == if |r.sent| == 0 then c.url else Some(r.sent[|r.sent| - 1].url)
  }

  lemma HoldsLastUrlPrepend(c: Client, c1: Client, x: Dispatched, w: real, rest: Run)
    requires c1.url == Some(x.url) && HoldsLastUrl(c1, rest)
    ensures HoldsLastUrl(c, Run(rest.client, rest.outcome, [x] + rest.sent, [w] + rest.notices))
  {
    var sent := [x] + rest.sent;
    assert sent[|sent| - 1] == if |rest.sent| == 0 then x else rest.sent[|rest.sent| - 1];
  }

  /** Afterwards the client holds the URL of the last attempt dispatched. */
  lemma {:induction false} RequestLastUrl(c: Client, path: string, params: Params, anchor: real,
                                          post: Option<PyDict.Dict<Value>>, env: seq<Exchange>)
    requires Valid(c) && WellFormed(params)
    ensures HoldsLastUrl(c, Request(c, path, params, anchor, post, env))
    decreases |env|
  {
    if |env| > 0 {
      var a := Attempt(c, path, params, anchor, post, env[0]);
      RequestStep(c, path, params, anchor, post, env);
      if a.step.Retry? {
        var rest := Request(a.step.client, path, a.step.params, anchor, post, env[1..]);
        RequestLastUrl(a.step.client, path, a.step.params, anchor, post, env[1..]);
        HoldsLastUrlPrepend(c, a.step.client, a.sent.value, a.step.sleepFor, rest);
      }
    }
  }

  /** The window after a run that dispatched `sent` and announced `notices`:
      one send time more exactly when the last attempt was dispatched and not
      retried and its reply was a 200. */
  function WindowAfter(c: Client, env: seq<Exchange>, sent: seq<Dispatched>, notices: seq<real>): seq<real>
  {
    if |notices| < |sent| <= |env| && env[|sent| - 1].response.status == 200
    then Push(c.sentTimes, env[|sent| - 1].after, c.limit) else c.sentTimes
  }

  lemma WindowAfterPrepend(c: Client, c1: Client, env: seq<Exchange>, x: Dispatched, w: real,
                           sent: seq<Dispatched>, notices: seq<real>)
    requires |env| > 0 && c1.sentTimes == c.sentTimes && c1.limit == c.limit
    ensures WindowAfter(c, env, [x] + sent, [w] + notices) == WindowAfter(c1, env[1..], sent, notices)
  {
    if |notices| < |sent| <= |env| - 1 {
      assert env[|sent|] == env[1..][|sent| - 1];
    }
  }

  /** A send time is recorded only when the final attempt got a 200 reply;
      retried 429s leave the window as it was. */
  lemma {:induction false} RequestWindow(c: Client, path: string, params: Params, anchor: real,
                                         post: Option<PyDict.Dict<Value>>, env: seq<Exchange>)
    requires Valid(c) && WellFormed(params)
    ensures var r := Request(c, path, params, anchor, post, env);
      r.client.sentTimes == WindowAfter(c, env, r.sent, r.notices)
    decreases |env|
  {
    if |env| > 0 {
      var a := Attempt(c, path, params, anchor, post, env[0]);
      RequestStep(c, path, params, anchor, post, env);
      if a.step.Retry? {
        var rest := Request(a.step.client, path, a.step.params, anchor, post, env[1..]);
        RequestWindow(a.step.client, path, a.step.params, anchor, post, env[1..]);
        WindowAfterPrepend(c, a.step.client, env, a.sent.value, a.step.sleepFor, rest.sent, rest.notices);
      }
    }
  }

  /** How a run over `env` ended, in terms of its last reply: it returns the
      body of a final 200 that carries a `geocoding` block and takes over its
      warnings; any error other than Timeout comes from the last reply. */
  predicate EndsWithLastReply(c: Client, env: seq<Exchange>, r: Run)
  {
    |r.sent| <= |env|
    && (r.outcome.Returned? ==>
         |r.sent| == |r.notices| + 1 && env[|r.sent| - 1].response.status == 200
         && r.outcome.body == env[|r.sent| - 1].response.body
         && r.outcome.body.geocoding.Some? && r.client.warnings == r.outcome.body.geocoding.value.warnings)
    && (!r.outcome.Returned? ==> r.client.warnings == c.warnings)
    && (r.outcome.Raised? && r.outcome.error != Timeout ==>
         |r.sent| == |r.notices| + 1 &&
         if env[|r.sent| - 1].response.status == 200 then r.outcome.error == KeyError("geocoding")
         else Failure(r.outcome.error) == GetBody(env[|r.sent| - 1].response))
  }

  lemma EndsWithLastReplyPrepend(c: Client, c1: Client, env: seq<Exchange>, x: Dispatched, w: real, rest: Run)
    requires |env| > 0 && c1.warnings == c.warnings
    requires EndsWithLastReply(c1, env[1..], rest)
    ensures EndsWithLastReply(c, env, Run(rest.client, rest.outcome, [x] + rest.sent, [w] + rest.notices))
  {
    if |rest.sent| > 0 {
      assert env[|rest.sent|] == env[1..][|rest.sent| - 1];
    }
  }

  /** How `request` ends: it returns the body of a final 200 that carries a
      `geocoding` block and takes over its warnings; any other error is raised
      at once, classified from the last reply. */
  lemma {:induction false} RequestOutcome(c: Client, path: string, params: Params, anchor: real,
                                          post: Option<PyDict.Dict<Value>>, env: seq<Exchange>)
    requires Valid(c) && WellFormed(params)
    ensures EndsWithLastReply(c, env, Request(c, path, params, anchor, post, env))
    decreases |env|
  {
    if |env| > 0 {
      var a := Attempt(c, path, params, anchor, post, env[0]);
      RequestStep(c, path, params, anchor, post, env);
      if a.step.Retry? {
        var rest := Request(a.step.client, path, a.step.params, anchor, post, env[1..]);
        RequestOutcome(a.step.client, path, a.step.params, anchor, post, env[1..]);
        EndsWithLastReplyPrepend(c, a.step.client, env, a.sent.value, a.step.sleepFor, rest);
      }
    }
  }

  /** With three sends recorded and the oldest no older than a second, the
      wait is the unit's length minus the oldest send's age. */
  lemma BackoffScenario(t0: real, t1: real, t2: real, now: real)
    requires t0 <= now <= t0 + 1.0
    ensures Backoff([t0, t1, t2], now, "second") == 1.0 - (now - t0)
    ensures Backoff([t0, t1, t2], now, "minute") == 60.0 - (now - t0)
  {
  }
}
