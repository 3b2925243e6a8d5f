/** `lambda_handler` (app/handler.py): read the image key from the request,
    download the image, OCR it, post-process the text, and answer with an
    HTTP-style response; the downloaded file is cleaned up on the way out. */
module Handler {
  import opened Outcomes
  import opened JsonValue
  import Postprocess

  type Headers = seq<(string, string)>

  /** Lines 57-61 and 69-73: the headers of the 200 and 500 responses. */
  const CorsHeaders: Headers := [
    ("Access-Control-Allow-Origin", "*"),
    ("Access-Control-Allow-Headers", "*"),
    ("Access-Control-Allow-Methods", "POST,OPTIONS")]

  /** The dict the handler returns. `body` is the value that `json.dumps`
      serialises; the 400 response has no `headers` entry. */
  datatype Response = Response(statusCode: int, body: Json, headers: Option<Headers>)

  const MissingKeyError := "Missing required parameters: key"

  /** Lines 38-41. */
  const BadRequest := Response(400, Dict([("error", Str(MissingKeyError))]), None)

  /** Lines 66-74: the answer to any exception raised in the `try` block. */
  function ServerError(message: string): Response {
    Response(500, Dict([("error", Str(message))]), Some(CorsHeaders))
  }

  /** A call the handler makes to one of its collaborators; `P` is whatever
      the download returns, which the handler only passes along. */
  datatype Call<P> = Download(key: Json) | ExtractText(path: P) | Process(text: string) | Cleanup(path: P)

  /** The S3 download, the truth value Python gives its result, and the OCR. */
  datatype Services<!P> = Services(
    download: Json -> Outcome<P>,
    isTruthy: P -> bool,
    extractText: P -> Outcome<string>)

  /** Lines 30-33: a string body is JSON to be parsed; any other body is used
      as it is; without a body the event itself is the request. */
  function SelectBody(event: Entries, loads: string -> Outcome<Json>): Outcome<Json> {
    match Lookup(event, "body")
    case Some(Str(s)) => loads(s)
    case Some(v) => Ok(v)
    case None => Ok(Dict(event))
  }

  /** Line 35: `body["key"]`, or the exception that body selection or the
      subscript raises. */
  function RequestKey(event: Entries, loads: string -> Outcome<Json>): Outcome<Json> {
    match SelectBody(event, loads)
    case Raised(m) => Raised(m)
    case Ok(body) => Subscript(body, "key")
  }

  /** `process_text` with its collaborators fixed. */
  function Processor(env: Postprocess.Environment): string -> Json {
    text => Postprocess.Processed(text, env)
  }

  /** Lines 27-78: the response, for a `json.loads` and a text processor
      given as parameters. */
  function Handled<P>(event: Entries, svc: Services<P>, loads: string -> Outcome<Json>, process: string -> Json): Response {
    match RequestKey(event, loads)
    case Raised(m) => ServerError(m)
    case Ok(key) =>
      if !Truthy(key) then BadRequest
      else
        match svc.download(key)
        case Raised(m) => ServerError(m)
        case Ok(path) =>
          match svc.extractText(path)
          case Raised(m) => ServerError(m)
          case Ok(text) => Response(200, process(text), Some(CorsHeaders))
  }

  /** Lines 35-62: the calls the `try` block makes, in order, up to the
      first one that raises. */
  function Attempted<P>(event: Entries, svc: Services<P>, loads: string -> Outcome<Json>): seq<Call<P>> {
    match RequestKey(event, loads)
    case Raised(_) => []
    case Ok(key) =>
      if !Truthy(key) then []
      else
        match svc.download(key)
        case Raised(_) => [Download(key)]
        case Ok(path) =>
          match svc.extractText(path)
          case Raised(_) => [Download(key), ExtractText(path)]
          case Ok(text) => [Download(key), ExtractText(path), Process(text)]
  }

  /** `local_image_path` when the `finally` block runs: set only by a
      download that returned. */
  function SavedPath<P>(event: Entries, svc: Services<P>, loads: string -> Outcome<Json>): Option<P> {
    match RequestKey(event, loads)
    case Raised(_) => None
    case Ok(key) =>
      if !Truthy(key) then None
      else
        match svc.download(key)
        case Raised(_) => None
        case Ok(path) => Some(path)
  }

  /** Lines 35-78: every collaborator call, in order; the `finally` block
      (lines 76-78) cleans up whenever the saved path is true. */
  function CallsMade<P>(event: Entries, svc: Services<P>, loads: string -> Outcome<Json>): seq<Call<P>> {
    var saved := SavedPath(event, svc, loads);
    Attempted(event, svc, loads)
      + if saved.Some? && svc.isTruthy(saved.value) then [Cleanup(saved.value)] else []
  }

  /** Lines 54-62: the 200 response carrying what `process_text` made of the text. */
  method Success(text: string, env: Postprocess.Environment) returns (resp: Response)
    ensures resp == Response(200, Processor(env)(text), Some(CorsHeaders))
  {
    var processed := Postprocess.ProcessText(text, env);
    resp := Response(200, processed, Some(CorsHeaders));
  }

  /** Lines 14-78: the `try`/`except`/`finally` of the handler; `trace`
      records the collaborator calls. */
  method LambdaHandler<P>(event: Entries, svc: Services<P>, env: Postprocess.Environment)
    returns (resp: Response, ghost trace: seq<Call<P>>)
    ensures resp == Handled(event, svc, env.loads, Processor(env))
    ensures trace == CallsMade(event, svc, env.loads)
  {
    var localImagePath: Option<P> := None;
    trace := [];
    var key := RequestKey(event, env.loads);
    if key.Raised? {
      resp := ServerError(key.message);
    } else if !Truthy(key.value) {
      resp := BadRequest;
    } else {
      trace := trace + [Download(key.value)];
      var downloaded := svc.download(key.value);
      if downloaded.Raised? {
        resp := ServerError(downloaded.message);
      } else {
        localImagePath := Some(downloaded.value);
        trace := trace + [ExtractText(downloaded.value)];
        var extracted := svc.extractText(downloaded.value);
        if extracted.Raised? {
          resp := ServerError(extracted.message);
        } else {
          trace := trace + [Process(extracted.value)];
          assert trace == Attempted(event, svc, env.loads);
          resp := Success(extracted.value, env);
        }
      }
    }
    assert trace == Attempted(event, svc, env.loads);
    assert localImagePath == SavedPath(event, svc, env.loads);
    // finally
    if localImagePath.Some? && svc.isTruthy(localImagePath.value) {
      trace := trace + [Cleanup(localImagePath.value)];
    }
  }

  // ---------------------------------------------------------------------
  // Properties of a request

  /** The number of cleanup calls in a list of calls. */
  function Cleanups<P>(calls: seq<Call<P>>): nat
    decreases |calls|
  {
    if calls == [] then 0
    else (if calls[0].Cleanup? then 1 else 0) + Cleanups(calls[1..])
  }

  /** The download succeeded with a truthy result: the condition of line 77. */
  predicate Downloaded<P>(event: Entries, svc: Services<P>, loads: string -> Outcome<Json>) {
    RequestKey(event, loads).Ok? && Truthy(RequestKey(event, loads).value)
    && svc.download(RequestKey(event, loads).value).Ok?
    && svc.isTruthy(svc.download(RequestKey(event, loads).value).value)
  }

  /** The status is 200, 400 or 500; 400 exactly when the key is present but
      falsy, and only the 400 response lacks the CORS headers. */
  lemma StatusCodes<P>(event: Entries, svc: Services<P>, loads: string -> Outcome<Json>, process: string -> Json)
    ensures var resp := Handled(event, svc, loads, process);
      (resp.statusCode == 200 || resp.statusCode == 400 || resp.statusCode == 500)
      && (resp.statusCode == 400 <==> RequestKey(event, loads).Ok? && !Truthy(RequestKey(event, loads).value))
      && (resp.statusCode == 400 <==> resp.headers.None?)
      && (resp.statusCode != 400 ==> resp.headers == Some(CorsHeaders))
  {
  }

  /** A present but falsy key is refused before any collaborator is called. */
  lemma FalsyKeyRefused<P>(event: Entries, svc: Services<P>, loads: string -> Outcome<Json>, process: string -> Json)
    requires RequestKey(event, loads).Ok? && !Truthy(RequestKey(event, loads).value)
    ensures Handled(event, svc, loads, process) == BadRequest
    ensures CallsMade(event, svc, loads) == []
  {
  }

  /** A request whose body has no `key` fails with the `KeyError` text. */
  lemma AbsentKeyFails<P>(event: Entries, svc: Services<P>, loads: string -> Outcome<Json>, process: string -> Json)
    requires SelectBody(event, loads).Ok? && SelectBody(event, loads).value.Dict?
    requires Lookup(SelectBody(event, loads).value.entries, "key").None?
    ensures Handled(event, svc, loads, process) == ServerError(MissingKeyMessage("key"))
    ensures CallsMade(event, svc, loads) == []
  {
  }

  /** An event with no `body` is itself the request, as from the test console. */
  lemma EventIsRequest<P>(event: Entries, svc: Services<P>, loads: string -> Outcome<Json>, key: Json)
    requires Lookup(event, "body").None? && Lookup(event, "key") == Some(key) && Truthy(key)
    ensures CallsMade(event, svc, loads)[0] == Download(key)
  {
  }

  /** A truthy key is the first thing downloaded. */
  lemma KeyIsDownloaded<P>(event: Entries, svc: Services<P>, loads: string -> Outcome<Json>, key: Json)
    requires RequestKey(event, loads) == Ok(key) && Truthy(key)
    ensures CallsMade(event, svc, loads)[0] == Download(key)
  {
  }

  /** A string body, as API Gateway sends it, is parsed, and the key of the
      parsed dict is downloaded. */
  lemma StringBodyIsParsed<P>(event: Entries, svc: Services<P>, loads: string -> Outcome<Json>, s: string, body: Entries, key: Json)
    requires Lookup(event, "body") == Some(Str(s)) && loads(s) == Ok(Dict(body))
    requires Lookup(body, "key") == Some(key) && Truthy(key)
    ensures SelectBody(event, loads) == Ok(Dict(body))
    ensures CallsMade(event, svc, loads)[0] == Download(key)
  {
    assert RequestKey(event, loads) == Ok(key);
    KeyIsDownloaded(event, svc, loads, key);
  }

  /** A body that is already a dict is the request as it is. */
  lemma BodyIsRequest<P>(event: Entries, svc: Services<P>, loads: string -> Outcome<Json>, body: Entries, key: Json)
    requires Lookup(event, "body") == Some(Dict(body))
    requires Lookup(body, "key") == Some(key) && Truthy(key)
    ensures SelectBody(event, loads) == Ok(Dict(body))
    ensures CallsMade(event, svc, loads)[0] == Download(key)
  {
    assert RequestKey(event, loads) == Ok(key);
    KeyIsDownloaded(event, svc, loads, key);
  }

  /** Every exception ends in a 500 response carrying its text; the text is
      processed exactly when the answer is 200, and the 200 body is what the
      processor made of that text, since `process_text` never raises. */
  lemma OutcomeOfRequest<P>(event: Entries, svc: Services<P>, loads: string -> Outcome<Json>, process: string -> Json)
    ensures var resp, calls := Handled(event, svc, loads, process), CallsMade(event, svc, loads);
      (resp.statusCode == 500 <==> exists m :: resp == ServerError(m))
      && (resp.statusCode == 200 <==> exists i :: 0 <= i < |calls| && calls[i].Process?)
      && (forall i :: 0 <= i < |calls| && calls[i].Process? ==>
            resp == Response(200, process(calls[i].text), Some(CorsHeaders)))
  {
    var resp, calls := Handled(event, svc, loads, process), CallsMade(event, svc, loads);
    var saved := SavedPath(event, svc, loads);
    var cleanup: seq<Call<P>> := if saved.Some? && svc.isTruthy(saved.value) then [Cleanup(saved.value)] else [];
    assert calls == Attempted(event, svc, loads) + cleanup;
    match RequestKey(event, loads)
    case Raised(m) =>
      assert resp == ServerError(m);
    case Ok(key) =>
      if Truthy(key) {
        match svc.download(key)
        case Raised(m) =>
          assert resp == ServerError(m);
          assert calls == [Download(key)];
        case Ok(path) =>
          match svc.extractText(path)
          case Raised(m) =>
            assert resp == ServerError(m);
            assert calls == [Download(key), ExtractText(path)] + cleanup;
          case Ok(text) =>
            assert calls == [Download(key), ExtractText(path), Process(text)] + cleanup;
            assert calls[2].Process?;
      }
  }

  /** An exception from reading the body or its `key` is answered with its text. */
  lemma RequestErrorAnswered<P>(event: Entries, svc: Services<P>, loads: string -> Outcome<Json>, process: string -> Json, m: string)
    requires RequestKey(event, loads) == Raised(m)
    ensures Handled(event, svc, loads, process) == ServerError(m)
  {
  }

  /** An exception from the download of a truthy key is answered with its text. */
  lemma DownloadErrorAnswered<P>(event: Entries, svc: Services<P>, loads: string -> Outcome<Json>, process: string -> Json, key: Json, m: string)
    requires RequestKey(event, loads) == Ok(key) && Truthy(key)
    requires svc.download(key) == Raised(m)
    ensures Handled(event, svc, loads, process) == ServerError(m)
  {
  }

  /** An exception from the OCR of the downloaded file is answered with its text. */
  lemma OcrErrorAnswered<P>(event: Entries, svc: Services<P>, loads: string -> Outcome<Json>, process: string -> Json, key: Json, path: P, m: string)
    requires RequestKey(event, loads) == Ok(key) && Truthy(key)
    requires svc.download(key) == Ok(path) && svc.extractText(path) == Raised(m)
    ensures Handled(event, svc, loads, process) == ServerError(m)
  {
  }

  /** When the download and the OCR both return, the answer is 200 with what
      `process_text` made of the OCR text. */
  lemma TextAnswered<P>(event: Entries, svc: Services<P>, loads: string -> Outcome<Json>, process: string -> Json, key: Json, path: P, text: string)
    requires RequestKey(event, loads) == Ok(key) && Truthy(key)
    requires svc.download(key) == Ok(path) && svc.extractText(path) == Ok(text)
    ensures Handled(event, svc, loads, process) == Response(200, process(text), Some(CorsHeaders))
  {
  }

  /** Cleanup runs once, as the last call, exactly when the download returned
      a truthy value, and never otherwise. */
  lemma CleanupOnce<P>(event: Entries, svc: Services<P>, loads: string -> Outcome<Json>)
    ensures var calls := CallsMade(event, svc, loads);
      Cleanups(calls) == (if Downloaded(event, svc, loads) then 1 else 0)
      && (forall i :: 0 <= i < |calls| && calls[i].Cleanup? ==> i == |calls| - 1)
  {
    var saved := SavedPath(event, svc, loads);
    var before := Attempted(event, svc, loads);
    var cleanup: seq<Call<P>> := if saved.Some? && svc.isTruthy(saved.value) then [Cleanup(saved.value)] else [];
    assert forall i :: 0 <= i < |before| ==> !before[i].Cleanup?;
    NoCleanups(before);
    CleanupsAppend(before, cleanup);
    assert Cleanups(cleanup) == |cleanup|;
  }

  lemma {:induction false} NoCleanups<P>(calls: seq<Call<P>>)
    requires forall i :: 0 <= i < |calls| ==> !calls[i].Cleanup?
    ensures Cleanups(calls) == 0
    decreases |calls|
  {
    if calls != [] {
      assert forall i :: 0 <= i < |calls[1..]| ==> calls[1..][i] == calls[i + 1];
      NoCleanups(calls[1..]);
    }
  }

  lemma {:induction false} CleanupsAppend<P>(a: seq<Call<P>>, b: seq<Call<P>>)
    ensures Cleanups(a + b) == Cleanups(a) + Cleanups(b)
    decreases |a|
  {
    if a != [] {
      assert (a + b)[1..] == a[1..] + b;
      CleanupsAppend(a[1..], b);
    } else {
      assert a + b == b;
    }
  }

  /** The collaborators run in the order download, OCR, process, and a
      failure at any step means none of the later ones runs. */
  lemma CallOrder<P>(event: Entries, svc: Services<P>, loads: string -> Outcome<Json>)
    ensures var calls := CallsMade(event, svc, loads);
      (forall i :: 0 <= i < |calls| ==> (calls[i].Download? <==> i == 0))
      && (forall i :: 0 <= i < |calls| && calls[i].ExtractText? ==> i == 1)
      && (forall i :: 0 <= i < |calls| && calls[i].Process? ==> i == 2 && calls[1].ExtractText?)
      && (|calls| > 0 ==> calls[0] == Download(RequestKey(event, loads).value))
      && (|calls| > 1 ==> svc.download(calls[0].key).Ok?
                          && calls[1] == ExtractText(svc.download(calls[0].key).value))
      && (forall i :: 0 <= i < |calls| && calls[i].Process? ==>
            svc.extractText(calls[1].path) == Ok(calls[i].text))
  {
  }
}
