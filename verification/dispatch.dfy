/** JSON values as the server sees them after decoding: Python's `None`,
    `bool`, `int`, `str`, `list` and `dict`. */
module PyJson {

  datatype Json =
    | JNull
    | JBool(b: bool)
    | JNum(n: int)
    | JStr(s: string)
    | JArr(elems: seq<Json>)
    | JObj(fields: map<string, Json>)

  /** Python truthiness: `None`, `False`, `0`, `""`, `[]` and `{}` are falsy. */
  predicate Truthy(j: Json) {
    match j
    case JNull => false
    case JBool(b) => b
    case JNum(n) => n != 0
    case JStr(s) => s != []
    case JArr(e) => e != []
    case JObj(f) => f != map[]
  }

  /** `type(j).__name__`. */
  function TypeName(j: Json): string {
    match j
    case JNull => "NoneType"
    case JBool(_) => "bool"
    case JNum(_) => "int"
    case JStr(_) => "str"
    case JArr(_) => "list"
    case JObj(_) => "dict"
  }

  /** `d.get(key)` on a dict: the value, or `None` when the key is absent. */
  function Get(fields: map<string, Json>, key: string): (r: Json)
    ensures key !in fields ==> r == JNull
    ensures key in fields ==> r == fields[key]
  {
    if key in fields then fields[key] else JNull
  }

  /** The one-field object `{"error": msg}`. */
  function ErrorObject(msg: string): (r: Json)
    ensures r.JObj? && r.fields.Keys == {"error"} && r.fields["error"] == JStr(msg)
  {
    JObj(map["error" := JStr(msg)])
  }
}

/** The cloud function `generate_timestamps`: the call to the timestamp
    service for one URL, and the decision table from request to response. */
module Dispatch {
  import opened Optional
  import opened JsText
  import opened PyJson

  // ------------------------------------------------------------ the remote call

  /** The decoded body of the service's reply: a JSON value, or a body that
      does not decode, with the decoder's message. */
  datatype Body = Parsed(json: Json) | Unparsable(reason: string)

  /** What `requests.post` gives for one call: a reply (status, decoded
      body, raw text), a timeout, or another exception with its message. */
  datatype Outcome =
    | Replied(status: nat, body: Body, text: string)
    | TimedOut
    | Raised(msg: string)

  /** The tuple `(success, data, error)`; `data` is `JNull` where the code
      returns `None`. */
  datatype CallResult = CallResult(success: bool, data: Json, error: Option<string>)

  const TimeoutMessage: string := "Request to Bumpups API timed out after 60 seconds"

  /** `call_bumpups_api`: success exactly for a 200 reply whose body decodes;
      a decoding failure on a 200 reply is an exception like any other. */
  function CallApi(outcome: Outcome): (r: CallResult)
    ensures r.success <==> outcome.Replied? && outcome.status == 200 && outcome.body.Parsed?
    ensures r.success ==> r.data == outcome.body.json && r.error.None?
    ensures !r.success ==> r.data == JNull && r.error.Some?
    ensures outcome.Replied? && outcome.status != 200 ==>
              r.error == Some("Bumpups API returned status " + NatToString(outcome.status) + ": " + Take(outcome.text, 200))
    ensures outcome.TimedOut? ==> r.error == Some(TimeoutMessage)
    ensures outcome.Replied? && outcome.status == 200 && outcome.body.Unparsable? ==>
              r.error == Some("Error calling Bumpups API: " + outcome.body.reason)
    ensures outcome.Raised? ==> r.error == Some("Error calling Bumpups API: " + outcome.msg)
  {
    match outcome
    case Replied(status, body, text) =>
      if status == 200 then
        match body
        case Parsed(json) => CallResult(true, json, None)
        case Unparsable(reason) => CallResult(false, JNull, Some("Error calling Bumpups API: " + reason))
      else
        CallResult(false, JNull, Some("Bumpups API returned status " + NatToString(status) + ": " + Take(text, 200)))
    case TimedOut => CallResult(false, JNull, Some(TimeoutMessage))
    case Raised(msg) => CallResult(false, JNull, Some("Error calling Bumpups API: " + msg))
  }

  /** Exactly one of `data` and `error` is set, unless the service answers
      200 with the JSON literal `null`. */
  lemma CallApiDataXorError(outcome: Outcome)
    requires !(outcome.Replied? && outcome.status == 200 && outcome.body == Parsed(JNull))
    ensures (CallApi(outcome).data != JNull) != CallApi(outcome).error.Some?
  {
  }

  /** The exception: a 200 reply whose body is `null` succeeds with neither
      data nor error. */
  lemma CallApiNullBody(text: string)
    ensures var r := CallApi(Replied(200, Parsed(JNull), text));
            r.success && r.data == JNull && r.error.None?
  {
  }

  // ------------------------------------------------------------ batch mode

  /** One URL's contribution to the batch: a record for `results` or one
      for `errors`. */
  datatype Collected = Succeeded(record: Json) | Failed(record: Json)

  /** The error record `{"url": url, "error": msg}`. */
  function ErrorRecord(url: Json, msg: string): (r: Json)
    ensures r.JObj? && r.fields.Keys == {"url", "error"}
    ensures r.fields["url"] == url && r.fields["error"] == JStr(msg)
  {
    JObj(map["url" := url, "error" := JStr(msg)])
  }

  /** The message of the `TypeError` raised by `data["url"] = url` when the
      decoded data is not a dict. */
  function AssignError(data: Json): string
    requires !data.JObj?
  {
    if data.JArr? then "list indices must be integers or slices, not str"
    else "'" + TypeName(data) + "' object does not support item assignment"
  }

  /** Collecting one completed call: a success whose data is a dict gets the
      requested URL written into it; a success whose data cannot take the
      key, and every failure, becomes an error record. */
  function Collect(url: Json, outcome: Outcome): (r: Collected)
    ensures r.record.JObj? && "url" in r.record.fields && r.record.fields["url"] == url
    ensures r.Succeeded? <==> CallApi(outcome).success && CallApi(outcome).data.JObj?
    ensures r.Succeeded? ==> r.record.fields == CallApi(outcome).data.fields["url" := url]
    ensures !CallApi(outcome).success ==> r == Failed(ErrorRecord(url, CallApi(outcome).error.value))
    ensures CallApi(outcome).success && !CallApi(outcome).data.JObj? ==>
              r == Failed(ErrorRecord(url, AssignError(CallApi(outcome).data)))
  {
    var c := CallApi(outcome);
    if c.success then
      match c.data
      case JObj(fields) => Succeeded(JObj(fields["url" := url]))
      case other => Failed(ErrorRecord(url, AssignError(other)))
    else
      Failed(ErrorRecord(url, c.error.value))
  }

  /** What the batch loop gathers: `results` and `errors`, each as a
      multiset, because the calls complete in any order. */
  datatype Gathered = Gathered(results: multiset<Json>, errors: multiset<Json>) {

    /** Appends one collected record to the list it belongs to. */
    function Add(c: Collected): (g: Gathered)
      ensures c.Succeeded? ==> g == Gathered(results + multiset{c.record}, errors)
      ensures c.Failed? ==> g == Gathered(results, errors + multiset{c.record})
    {
      match c
      case Succeeded(rec) => Gathered(results + multiset{rec}, errors)
      case Failed(rec) => Gathered(results, errors + multiset{rec})
    }
  }

  /** The batch's calls, in submission order: the call for `urls[k]` has
      outcome `remote(k)`. */
  function Calls(urls: seq<Json>, remote: nat -> Outcome): (cs: seq<Collected>)
    ensures |cs| == |urls|
    ensures forall k :: 0 <= k < |urls| ==> cs[k] == Collect(urls[k], remote(k))
  {
    seq(|urls|, k requires 0 <= k < |urls| => Collect(urls[k], remote(k)))
  }

  /** The records of the completed calls, sorted into the two lists. */
  function Gather(cs: seq<Collected>): (g: Gathered)
    ensures |g.results| + |g.errors| == |cs|
  {
    if |cs| == 0 then Gathered(multiset{}, multiset{})
    else Gather(cs[..|cs| - 1]).Add(cs[|cs| - 1])
  }

  /** Calls are independent: the records gathered for `a + b` are those
      gathered for `a` together with those gathered for `b`. */
  lemma {:induction false} GatherAppend(a: seq<Collected>, b: seq<Collected>)
    ensures Gather(a + b).results == Gather(a).results + Gather(b).results
    ensures Gather(a + b).errors == Gather(a).errors + Gather(b).errors
    decreases |b|
  {
    if b == [] {
      assert a + b == a;
    } else {
      var ab, b', x := a + b, b[..|b| - 1], b[|b| - 1];
      assert ab[..|ab| - 1] == a + b';
      assert ab[|ab| - 1] == x;
      GatherLast(ab);
      GatherLast(b);
      GatherAppend(a, b');
      AddCombines(Gather(a), Gather(b'), Gather(b), Gather(a + b'), Gather(ab), x);
    }
  }

  lemma GatherLast(cs: seq<Collected>)
    requires |cs| > 0
    ensures Gather(cs) == Gather(cs[..|cs| - 1]).Add(cs[|cs| - 1])
  {
  }

  /** Adding a record to a combination of two gatherings is adding it to the
      second of them. */
  lemma AddCombines(p: Gathered, q: Gathered, qx: Gathered, pq: Gathered, all: Gathered, x: Collected)
    requires qx == q.Add(x) && all == pq.Add(x)
    requires pq.results == p.results + q.results && pq.errors == p.errors + q.errors
    ensures all.results == p.results + qx.results && all.errors == p.errors + qx.errors
  {
    if x.Succeeded? {
      assert all.results == p.results + (q.results + multiset{x.record});
    } else {
      assert all.errors == p.errors + (q.errors + multiset{x.record});
    }
  }

  /** Every call's record is gathered: into `results` when it collected as a
      success, into `errors` otherwise. */
  lemma {:induction false} GatherHasEach(cs: seq<Collected>, k: nat)
    requires k < |cs|
    ensures cs[k].Succeeded? ==> cs[k].record in Gather(cs).results
    ensures cs[k].Failed? ==> cs[k].record in Gather(cs).errors
  {
    var init := cs[..|cs| - 1];
    if k < |cs| - 1 {
      GatherHasEach(init, k);
      assert init[k] == cs[k];
    }
  }

  /** The results are the successful calls' records and the errors the
      failed calls' records, whatever order the calls complete in: any
      permutation of the calls gathers the same multisets. */
  lemma {:induction false} GatherOrderFree(cs: seq<Collected>, ds: seq<Collected>)
    requires multiset(cs) == multiset(ds)
    ensures Gather(cs) == Gather(ds)
    decreases |cs|
  {
    if |cs| > 0 {
      var init, last := cs[..|cs| - 1], cs[|cs| - 1];
      assert cs == init + [last];
      assert last in multiset(ds);
      var i :| 0 <= i < |ds| && ds[i] == last;
      var ds' := ds[..i] + ds[i + 1..];
      RemoveAtMultiset(ds, i);
      assert multiset(init) == multiset(cs) - multiset{last};
      GatherOrderFree(init, ds');
      GatherRemoveAt(ds, i);
    } else {
      assert ds == [];
    }
  }

  lemma RemoveAtMultiset<T>(s: seq<T>, i: nat)
    requires i < |s|
    ensures multiset(s[..i] + s[i + 1..]) == multiset(s) - multiset{s[i]}
  {
    assert s == s[..i] + [s[i]] + s[i + 1..];
  }

  /** Gathering is the same when any one call is taken out and added last. */
  lemma GatherRemoveAt(ds: seq<Collected>, i: nat)
    requires i < |ds|
    ensures Gather(ds) == Gather(ds[..i] + ds[i + 1..]).Add(ds[i])
  {
    SplitAround(ds, i);
    GatherMiddle(ds[..i], ds[i], ds[i + 1..], ds);
  }

  lemma SplitAround<T>(s: seq<T>, i: nat)
    requires i < |s|
    ensures s == s[..i] + ([s[i]] + s[i + 1..])
  {
    assert s == s[..i] + [s[i]] + s[i + 1..];
  }

  lemma GatherMiddle(pre: seq<Collected>, x: Collected, post: seq<Collected>, ds: seq<Collected>)
    requires ds == pre + ([x] + post)
    ensures Gather(ds) == Gather(pre + post).Add(x)
  {
    var rest := [x] + post;
    GatherAppend(pre, rest);
    GatherAppend(pre, post);
    GatherCons(x, post, rest);
    AddMovesOut(Gather(pre), Gather(post), Gather(rest), Gather(pre + post), Gather(ds), x);
  }

  /** Adding a record to the second of two combined gatherings is adding it
      to their combination. */
  lemma AddMovesOut(p: Gathered, q: Gathered, qx: Gathered, pq: Gathered, all: Gathered, x: Collected)
    requires qx == q.Add(x)
    requires all.results == p.results + qx.results && all.errors == p.errors + qx.errors
    requires pq.results == p.results + q.results && pq.errors == p.errors + q.errors
    ensures all == pq.Add(x)
  {
    if x.Succeeded? {
      assert all.results == pq.results + multiset{x.record};
    } else {
      assert all.errors == pq.errors + multiset{x.record};
    }
  }

  lemma GatherCons(x: Collected, post: seq<Collected>, s: seq<Collected>)
    requires s == [x] + post
    ensures Gather(s) == Gather(post).Add(x)
  {
    GatherAppend([x], post);
    GatherOne(x);
    AddMovesOut(Gather(post), Gathered(multiset{}, multiset{}), Gather([x]), Gather(post), Gather(s), x);
  }

  lemma GatherOne(x: Collected)
    ensures Gather([x]) == Gathered(multiset{}, multiset{}).Add(x)
  {
    assert [x][..0] == [];
  }

  // ------------------------------------------------------------ dispatch

  /** An incoming request: the HTTP method (`verb`) and the body as
      `get_json(silent=True)` gives it (`None` when missing or not JSON). */
  datatype Request = Request(verb: string, body: Option<Json>)

  /** The response: its status and what its body holds. A batch body lists
      its records as multisets; its `errors` field is `null` when the
      multiset is empty. */
  datatype ResponseBody =
    | NoBody
    | JsonBody(json: Json)
    | BatchBody(total: nat, successful: nat, failed: nat, results: multiset<Json>, errors: multiset<Json>)

  datatype Response = Response(status: nat, payload: ResponseBody)

  const InvalidBody: string := "Invalid JSON in request body"
  const NoApiKey: string := "API key not configured"
  const MissingField: string := "Missing required field: 'url' (string) or 'urls' (array)"
  const EmptyUrls: string := "Empty 'urls' array provided"

  /** The `urls` field when it selects batch mode: a non-empty list. */
  predicate IsBatch(fields: map<string, Json>) {
    var urls := Get(fields, "urls");
    Truthy(urls) && urls.JArr?
  }

  /** The batch reply: a one-URL batch that succeeded answers with the bare
      record; otherwise the summary of what the calls gathered, 200 when no
      call failed and 207 when some did. */
  function BatchResponse(urls: seq<Json>, remote: nat -> Outcome): (r: Response)
    requires |urls| > 0
    ensures var g := Gather(Calls(urls, remote));
            r.payload.BatchBody? ==>
              r.payload == BatchBody(|urls|, |g.results|, |g.errors|, g.results, g.errors)
    ensures r.status == 200 <==> forall k :: 0 <= k < |urls| ==> Collect(urls[k], remote(k)).Succeeded?
    ensures r.status != 200 ==> r.status == 207 && r.payload.BatchBody?
    ensures |urls| == 1 && Collect(urls[0], remote(0)).Succeeded? ==>
              r == Response(200, JsonBody(Collect(urls[0], remote(0)).record))
    ensures r.payload.JsonBody? ==> |urls| == 1 && Collect(urls[0], remote(0)).Succeeded?
  {
    var g := Gather(Calls(urls, remote));
    BatchOutcome(urls, remote);
    if |urls| == 1 && |g.results| == 1 && |g.errors| == 0 then
      Response(200, JsonBody(Collect(urls[0], remote(0)).record))
    else
      Response(if |g.errors| == 0 then 200 else 207,
               BatchBody(|urls|, |g.results|, |g.errors|, g.results, g.errors))
  }

  /** What the batch's gathered records say about its calls: no error
      exactly when every call succeeded, and for one URL a lone result
      exactly when its call succeeded. */
  lemma BatchOutcome(urls: seq<Json>, remote: nat -> Outcome)
    ensures var g := Gather(Calls(urls, remote));
            && (|g.errors| == 0 <==> forall k :: 0 <= k < |urls| ==> Collect(urls[k], remote(k)).Succeeded?)
            && (|urls| == 1 ==>
                  (|g.results| == 1 && |g.errors| == 0 <==> Collect(urls[0], remote(0)).Succeeded?))
  {
    var cs := Calls(urls, remote);
    GatherNoErrorsIff(cs);
    GatherSingle(urls, remote);
  }

  /** No error record is gathered exactly when every call succeeded. */
  lemma {:induction false} GatherNoErrorsIff(cs: seq<Collected>)
    ensures |Gather(cs).errors| == 0 <==> forall k :: 0 <= k < |cs| ==> cs[k].Succeeded?
  {
    if |cs| > 0 {
      var init, last := cs[..|cs| - 1], cs[|cs| - 1];
      GatherNoErrorsIff(init);
      GatherLast(cs);
      NoErrorsStep(Gather(init), last, Gather(cs));
      assert forall k :: 0 <= k < |init| ==> init[k] == cs[k];
    }
  }

  lemma NoErrorsStep(g: Gathered, x: Collected, gx: Gathered)
    requires gx == g.Add(x)
    ensures |gx.errors| == 0 <==> |g.errors| == 0 && x.Succeeded?
  {
  }

  /** A one-URL batch gathers exactly that call's record. */
  lemma GatherSingle(urls: seq<Json>, remote: nat -> Outcome)
    ensures |urls| == 1 ==>
              Gather(Calls(urls, remote)) == Gathered(multiset{}, multiset{}).Add(Collect(urls[0], remote(0)))
  {
    if |urls| == 1 {
      assert Calls(urls, remote) == [Collect(urls[0], remote(0))];
      GatherOne(Collect(urls[0], remote(0)));
    }
  }

  /** The answer to a request whose body is a non-empty dict and for which
      a key is configured: batch mode, single-URL mode, or the missing-field
      error. */
  function Route(fields: map<string, Json>, remote: nat -> Outcome): Response {
    if IsBatch(fields) then
      BatchResponse(Get(fields, "urls").elems, remote)
    else if Truthy(Get(fields, "url")) then
      var c := CallApi(remote(0));
      if c.success then Response(200, JsonBody(c.data))
      else Response(500, JsonBody(ErrorObject(c.error.value)))
    else
      Response(400, JsonBody(ErrorObject(MissingField)))
  }

  /** `generate_timestamps`. `apiKey` is the environment's key; call number
      `k` made while answering has outcome `remote(k)`. */
  function Handle(req: Request, apiKey: Option<string>, remote: nat -> Outcome): (r: Response)
    ensures req.verb == "OPTIONS" ==> r == Response(204, NoBody)
    ensures req.verb != "OPTIONS" && req.verb != "POST" ==>
              r == Response(405, JsonBody(ErrorObject("Method not allowed")))
    ensures req.verb == "POST" && (req.body.None? || !Truthy(req.body.value)) ==>
              r == Response(400, JsonBody(ErrorObject(InvalidBody)))
    ensures req.verb == "POST" && req.body.Some? && Truthy(req.body.value) && (apiKey.None? || apiKey.value == []) ==>
              r == Response(500, JsonBody(ErrorObject(NoApiKey)))
    ensures req.verb == "POST" && req.body.Some? && Truthy(req.body.value) && apiKey.Some? && apiKey.value != [] ==>
              var body := req.body.value;
              && (body.JObj? && IsBatch(body.fields) ==> r == BatchResponse(Get(body.fields, "urls").elems, remote))
              && (body.JObj? && !IsBatch(body.fields) && !Truthy(Get(body.fields, "url")) ==>
                    r == Response(400, JsonBody(ErrorObject(MissingField))))
              && (!body.JObj? ==> r == Response(500, JsonBody(ErrorObject(NoGetMessage(body)))))
    ensures r.status in {200, 204, 207, 400, 405, 500}
  {
    if req.verb == "OPTIONS" then Response(204, NoBody)
    else if req.verb != "POST" then Response(405, JsonBody(ErrorObject("Method not allowed")))
    else if req.body.None? || !Truthy(req.body.value) then Response(400, JsonBody(ErrorObject(InvalidBody)))
    else if apiKey.None? || apiKey.value == [] then Response(500, JsonBody(ErrorObject(NoApiKey)))
    else
      var body := req.body.value;
      if body.JObj? then Route(body.fields, remote)
      else Response(500, JsonBody(ErrorObject(NoGetMessage(body))))
  }

  /** The internal-error message for a body that is not a dict: the
      `AttributeError` raised by `request_data.get`. */
  function NoGetMessage(body: Json): string {
    "Internal server error: '" + TypeName(body) + "' object has no attribute 'get'"
  }

  /** Single-URL mode: a successful call answers 200 with the service's data
      unchanged, a failed one 500 with the call's message. A list-valued
      `urls` is checked first, so this needs it absent, empty or not a list. */
  lemma SingleMode(fields: map<string, Json>, apiKey: string, remote: nat -> Outcome)
    requires fields != map[] && apiKey != [] && !IsBatch(fields) && Truthy(Get(fields, "url"))
    ensures var r := Handle(Request("POST", Some(JObj(fields))), Some(apiKey), remote);
            var c := CallApi(remote(0));
            && (c.success ==> r == Response(200, JsonBody(c.data)))
            && (!c.success ==> r == Response(500, JsonBody(ErrorObject(c.error.value))))
  {
  }

  /** A non-empty dict body with a key configured is routed on its fields. */
  lemma HandleDict(fields: map<string, Json>, apiKey: string, remote: nat -> Outcome)
    requires fields != map[] && apiKey != []
    ensures Handle(Request("POST", Some(JObj(fields))), Some(apiKey), remote) == Route(fields, remote)
  {
  }

  /** Batch mode takes precedence: with a non-empty `urls` list the `url`
      field is never looked at. */
  lemma BatchIgnoresUrl(fields: map<string, Json>, url: Json, apiKey: string, remote: nat -> Outcome)
    requires apiKey != [] && IsBatch(fields)
    ensures Handle(Request("POST", Some(JObj(fields))), Some(apiKey), remote) ==
            Handle(Request("POST", Some(JObj(fields["url" := url]))), Some(apiKey), remote)
  {
    var fields' := fields["url" := url];
    assert "urls" in fields && "url" in fields';
    HandleDict(fields, apiKey, remote);
    HandleDict(fields', apiKey, remote);
    assert Get(fields', "urls") == Get(fields, "urls");
  }

  /** An empty `urls` list is falsy, so it does not select batch mode: the
      request is answered as if it had no `urls` at all, and the
      empty-list error is never produced. */
  lemma EmptyUrlsFallsThrough(fields: map<string, Json>, apiKey: Option<string>, remote: nat -> Outcome)
    requires "urls" in fields && fields["urls"] == JArr([])
    requires fields - {"urls"} != map[]
    ensures Handle(Request("POST", Some(JObj(fields))), apiKey, remote) ==
            Handle(Request("POST", Some(JObj(fields - {"urls"}))), apiKey, remote)
  {
    var rest := fields - {"urls"};
    assert Get(fields, "url") == Get(rest, "url");
    assert fields != map[] by {
      assert "urls" in fields;
    }
  }

  /** A 400 answer is always about the body or the missing field, never
      about an empty `urls` list. */
  lemma BadRequestReasons(req: Request, apiKey: Option<string>, remote: nat -> Outcome)
    ensures var r := Handle(req, apiKey, remote);
            r.status == 400 ==>
              r.payload == JsonBody(ErrorObject(InvalidBody)) || r.payload == JsonBody(ErrorObject(MissingField))
    ensures Handle(req, apiKey, remote) != Response(400, JsonBody(ErrorObject(EmptyUrls)))
  {
  }

  /** Without an API key no call is made: the answer does not depend on the
      remote outcomes. */
  lemma NoKeyNoCall(req: Request, apiKey: Option<string>, remote: nat -> Outcome, remote': nat -> Outcome)
    requires apiKey.None? || apiKey.value == []
    ensures Handle(req, apiKey, remote) == Handle(req, apiKey, remote')
  {
  }

  /** The batch counts add up: every URL is counted once, as a success or as
      a failure, and the status is 200 exactly when every call succeeded. */
  lemma BatchCounts(fields: map<string, Json>, apiKey: string, remote: nat -> Outcome)
    requires apiKey != [] && IsBatch(fields)
    ensures var r := Handle(Request("POST", Some(JObj(fields))), Some(apiKey), remote);
            var urls := fields["urls"].elems;
            && (r.payload.BatchBody? ==>
                  r.payload.successful + r.payload.failed == r.payload.total == |urls|)
            && (r.status == 200 <==> forall k :: 0 <= k < |urls| ==> Collect(urls[k], remote(k)).Succeeded?)
            && (r.payload.JsonBody? ==> |urls| == 1 && r.status == 200)
  {
  }
}
