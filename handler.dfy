/** internal/http-server/handler/handler.go: JSON replies and requests, plain
    error pages, and the errorResponse payload whose problems map of errors
    travels as a map of strings. encoding/json's text format is not modelled: a
    Wire value stands for the document {"message": ..., "problems": {...}}, and
    what json.Unmarshal or a json.Decoder made of the request body is an input. */
module Handler {
  import opened Text
  import opened Errors
  import Http

  /** errorResponse; problems is None for a nil map. */
  datatype ErrorResponse = ErrorResponse(message: string, problems: Option<map<string, GoError>>)

  /** The anonymous struct that both JSON methods go through; problems is None
      for a nil map (JSON null). */
  datatype Wire = Wire(message: string, problems: Option<map<string, string>>)

  /** A nil map reads as an empty one. */
  function OrEmpty<V>(m: Option<map<string, V>>): map<string, V> {
    if m.Some? then m.value else map[]
  }

  /** err.Error() of every entry. */
  function Messages(problems: map<string, GoError>): (r: map<string, string>)
    ensures r.Keys == problems.Keys
    ensures forall k :: k in r ==> r[k] == problems[k].Message()
  {
    map k | k in problems :: problems[k].Message()
  }

  /** errors.New of every entry. */
  function Errs(problems: map<string, string>): (r: map<string, GoError>)
    ensures r.Keys == problems.Keys
    ensures forall k :: k in r ==> r[k].Message() == problems[k]
  {
    map k | k in problems :: Plain(problems[k])
  }

  /** What MarshalJSON produces. */
  function Marshal(e: ErrorResponse): Wire {
    Wire(e.message, Some(Messages(OrEmpty(e.problems))))
  }

  /** MarshalJSON: the problems map is always present, with the same keys, each
      value the error's message; a nil map encodes as an empty object. */
  method MarshalJSON(e: ErrorResponse) returns (w: Wire, err: Outcome)
    ensures w == Marshal(e) && err == Pass
    ensures w.message == e.message && w.problems.Some?
    ensures w.problems.value.Keys == OrEmpty(e.problems).Keys
    ensures forall k :: k in w.problems.value ==> w.problems.value[k] == OrEmpty(e.problems)[k].Message()
  {
    var source := OrEmpty(e.problems);
    var problems: map<string, string> := map[];
    var pending := source.Keys;
    while pending != {}
      invariant pending <= source.Keys
      invariant problems.Keys == source.Keys - pending
      invariant forall k :: k in problems ==> problems[k] == source[k].Message()
      decreases |pending|
    {
      var key :| key in pending;
      problems := problems[key := source[key].Message()];
      pending := pending - {key};
    }
    assert problems == Messages(source);
    w, err := Wire(e.message, Some(problems)), Pass;
  }

  /** What UnmarshalJSON leaves in its receiver, and its error, given what
      json.Unmarshal made of the text. */
  function Unmarshal(e: ErrorResponse, raw: Result<Wire>): (ErrorResponse, Outcome) {
    match raw
    case Err(err) => (e, Fail(err))
    case Ok(w) => (ErrorResponse(w.message, Some(Errs(OrEmpty(w.problems)))), Pass)
  }

  /** UnmarshalJSON: a text json.Unmarshal rejects leaves the receiver as it was;
      otherwise problems becomes a non-nil map with the same keys, each error's
      message the decoded string. */
  method UnmarshalJSON(e: ErrorResponse, raw: Result<Wire>) returns (e': ErrorResponse, err: Outcome)
    ensures (e', err) == Unmarshal(e, raw)
    ensures raw.Err? ==> e' == e && err == Fail(raw.error)
    ensures raw.Ok? ==> err == Pass && e'.message == raw.value.message && e'.problems.Some?
    ensures raw.Ok? ==> e'.problems.value.Keys == OrEmpty(raw.value.problems).Keys
    ensures raw.Ok? ==> forall k :: k in e'.problems.value ==>
      e'.problems.value[k].Message() == OrEmpty(raw.value.problems)[k]
  {
    if raw.Err? {
      return e, Fail(raw.error);
    }
    var source := OrEmpty(raw.value.problems);
    var problems: map<string, GoError> := map[];
    var pending := source.Keys;
    while pending != {}
      invariant pending <= source.Keys
      invariant problems.Keys == source.Keys - pending
      invariant forall k :: k in problems ==> problems[k] == Plain(source[k])
      decreases |pending|
    {
      var key :| key in pending;
      problems := problems[key := Plain(source[key])];
      pending := pending - {key};
    }
    assert problems == Errs(source);
    e', err := ErrorResponse(raw.value.message, Some(problems)), Pass;
  }

  /** Encoding a payload and decoding it again keeps the message and, for every
      key, the error's message; a nil problems map comes back empty and non-nil. */
  lemma {:induction false} MarshalUnmarshal(e: ErrorResponse, into: ErrorResponse)
    ensures Unmarshal(into, Ok(Marshal(e))).1 == Pass
    ensures Unmarshal(into, Ok(Marshal(e))).0.message == e.message
    ensures Unmarshal(into, Ok(Marshal(e))).0.problems.Some?
    ensures Unmarshal(into, Ok(Marshal(e))).0.problems.value.Keys == OrEmpty(e.problems).Keys
    ensures forall k :: k in OrEmpty(e.problems) ==>
      Unmarshal(into, Ok(Marshal(e))).0.problems.value[k].Message() == OrEmpty(e.problems)[k].Message()
  {
    var p := OrEmpty(e.problems);
    var back := Errs(Messages(p));
    assert Unmarshal(into, Ok(Marshal(e))).0.problems == Some(back);
    forall k | k in p
      ensures back[k].Message() == p[k].Message()
    {
      assert Messages(p)[k] == p[k].Message();
    }
  }

  /** Decoding a non-null problems document and encoding the result again gives
      the same document. */
  lemma UnmarshalMarshal(w: Wire, into: ErrorResponse)
    requires w.problems.Some?
    ensures Marshal(Unmarshal(into, Ok(w)).0) == w
  {
    var p := w.problems.value;
    assert Messages(Errs(p)) == p;
  }

  /** The JSON document of a Wire value. */
  function WireJson(w: Wire): Http.Json {
    Http.JObject(map[
      "message" := Http.JString(w.message),
      "problems" := if w.problems.None? then Http.JNull
                    else Http.JObject(map k | k in w.problems.value :: Http.JString(w.problems.value[k]))])
  }

  /** The JSON document of a []string. */
  function LinesJson(lines: seq<string>): (j: Http.Json)
    ensures j.JArray? && |j.items| == |lines|
    ensures forall k :: 0 <= k < |lines| ==> j.items[k] == Http.JString(lines[k])
  {
    Http.JArray(seq(|lines|, k requires 0 <= k < |lines| => Http.JString(lines[k])))
  }

  /** The calls encode makes: the Content-Type header, then the status, then the
      encoded document. */
  function EncodeActions(status: int, doc: Http.Json): (acts: seq<Http.Action>)
    ensures Http.HeaderOf(acts, "Content-Type") == Some("application/json")
    ensures Http.StatusOf(acts) == status
    ensures Http.JsonOf(acts) == [doc]
  {
    var sent := [Http.WriteHeader(status), Http.WriteJson(doc)];
    var acts := [Http.SetHeader("Content-Type", "application/json")] + sent;
    assert acts[1..] == sent && sent[1..][1..] == [];
    assert Http.JsonOf(sent[1..]) == [doc];
    acts
  }

  /** encode: its error, given the encoder's. */
  function Encode(status: int, doc: Http.Json, encoderErr: Option<GoError>): (r: (seq<Http.Action>, Outcome))
    ensures r.0 == EncodeActions(status, doc)
    ensures encoderErr.None? <==> r.1.Pass?
    ensures encoderErr.Some? ==> r.1.error.Message() == "encode json: " + encoderErr.value.Message()
  {
    (EncodeActions(status, doc), if encoderErr.None? then Pass else Fail(Wrapped("encode json: ", encoderErr.value)))
  }

  /** decode: what the decoder made of the body, its error wrapped. */
  function Decode<T>(decoded: Result<T>): (r: Result<T>)
    ensures r.Ok? <==> decoded.Ok?
    ensures r.Ok? ==> r.value == decoded.value
    ensures r.Err? ==> r.error.Message() == "decode json: " + decoded.error.Message()
  {
    if decoded.Ok? then decoded else Err(Wrapped("decode json: ", decoded.error))
  }

  /** responseFail: a JSON errorResponse with the given status (an encode
      error is only logged). */
  function ResponseFail(status: int, message: string, problems: Option<map<string, GoError>>): (acts: seq<Http.Action>)
    ensures Http.StatusOf(acts) == status
    ensures Http.HeaderOf(acts, "Content-Type") == Some("application/json")
    ensures Http.JsonOf(acts) == [WireJson(Marshal(ErrorResponse(message, problems)))]
  {
    EncodeActions(status, WireJson(Marshal(ErrorResponse(message, problems))))
  }

  /** responseSuccess: a JSON array of the lines with status 200. */
  function ResponseSuccess(lines: seq<string>): (acts: seq<Http.Action>)
    ensures Http.StatusOf(acts) == Http.StatusOK
    ensures Http.HeaderOf(acts, "Content-Type") == Some("application/json")
    ensures Http.JsonOf(acts) == [LinesJson(lines)]
  {
    EncodeActions(Http.StatusOK, LinesJson(lines))
  }

  /** renderFail: a plain-text error page. */
  function RenderFail(msg: string, status: int): (acts: seq<Http.Action>)
    ensures Http.StatusOf(acts) == status
    ensures Http.BodyOf(acts) == msg + "\n"
  {
    Http.Error(msg, status)
  }

  /** render: the Content-Type header, then the template's output; the error of
      template execution, if any, wrapped. */
  function Render(name: string, rows: seq<string>, execErr: Option<GoError>): (r: (seq<Http.Action>, Outcome))
    ensures Http.HeaderOf(r.0, "Content-Type") == Some("text/html")
    ensures execErr.None? <==> r.1.Pass?
    ensures execErr.Some? ==> r.1.error.Message() == "render HTML: " + execErr.value.Message()
  {
    var acts := [Http.SetHeader("Content-Type", "text/html"), Http.ExecuteTemplate(name, rows)];
    assert acts[1..][1..] == [];
    (acts, if execErr.None? then Pass else Fail(Wrapped("render HTML: ", execErr.value)))
  }

  /** A JSON document read back as the struct UnmarshalJSON decodes into, for
      documents whose keys are spelled exactly "message" and "problems" and
      whose values are strings; None for any other document. Absent fields keep
      their zero value. encoding/json also matches keys without regard to case
      and decodes a null string to "", which this reading does not cover. */
  function WireOf(j: Http.Json): Option<Wire> {
    if !j.JObject? then None
    else
      var f := j.fields;
      var message := if "message" in f then f["message"] else Http.JString("");
      var problems := if "problems" in f then f["problems"] else Http.JNull;
      if !message.JString? then None
      else if problems.JNull? then Some(Wire(message.s, None))
      else if !problems.JObject? || exists k :: k in problems.fields && !problems.fields[k].JString? then None
      else Some(Wire(message.s, Some(map k | k in problems.fields :: problems.fields[k].s)))
  }

  /** Reading back the document of a Wire gives the Wire. */
  lemma WireOfWireJson(w: Wire)
    ensures WireOf(WireJson(w)) == Some(w)
  {
    if w.problems.Some? {
      var p := w.problems.value;
      var doc := map k | k in p :: Http.JString(p[k]);
      assert (map k | k in doc :: doc[k].s) == p;
    }
  }

  /** The handler's test of responseFail: decoding the reply's body gives back
      the message and, key by key, the problems' messages. */
  lemma {:induction false} ResponseFailRoundTrip(status: int, message: string, problems: map<string, GoError>, into: ErrorResponse)
    ensures |Http.JsonOf(ResponseFail(status, message, Some(problems)))| == 1
    ensures WireOf(Http.JsonOf(ResponseFail(status, message, Some(problems)))[0]).Some?
    ensures var e := Unmarshal(into, Ok(WireOf(Http.JsonOf(ResponseFail(status, message, Some(problems)))[0]).value)).0;
      && e.message == message
      && e.problems.Some? && e.problems.value.Keys == problems.Keys
      && forall k :: k in problems ==> e.problems.value[k].Message() == problems[k].Message()
  {
    var e := ErrorResponse(message, Some(problems));
    WireOfWireJson(Marshal(e));
    MarshalUnmarshal(e, into);
  }
}
