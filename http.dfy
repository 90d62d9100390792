/** What a handler does to its http.ResponseWriter, as a sequence of calls, and
    what the client receives as a result: net/http sends the first WriteHeader's
    code (200 when the body is written first or nothing is written at all), the
    header values set before that point, and the written bytes. */
module Http {
  import opened Text

  const StatusOK := 200
  const StatusBadRequest := 400
  const StatusRequestEntityTooLarge := 413
  const StatusTooManyRequests := 429
  const StatusInternalServerError := 500

  /** A JSON document, as encoding/json maps Go values to it. */
  datatype Json = JNull | JString(s: string) | JArray(items: seq<Json>) | JObject(fields: map<string, Json>)

  /** w.Header().Set(key, value), w.WriteHeader(code), w.Write(data),
      json.NewEncoder(w).Encode of a value whose document is `doc`, and
      html/template's ExecuteTemplate(w, name, rows). */
  datatype Action =
    | SetHeader(key: string, value: string)
    | WriteHeader(code: int)
    | WriteBody(data: string)
    | WriteJson(doc: Json)
    | ExecuteTemplate(name: string, rows: seq<string>)

  /** What a middleware did with a request: answer it itself, or hand it on. */
  datatype Reply = Respond(actions: seq<Action>) | Next

  /** The status code on the wire. */
  function StatusOf(acts: seq<Action>): int {
    if acts == [] then StatusOK
    else match acts[0]
      case WriteHeader(code) => code
      case SetHeader(_, _) => StatusOf(acts[1..])
      case _ => StatusOK
  }

  /** The bytes on the wire. */
  function BodyOf(acts: seq<Action>): string {
    if acts == [] then []
    else (if acts[0].WriteBody? then acts[0].data else []) + BodyOf(acts[1..])
  }

  /** The JSON documents on the wire. */
  function JsonOf(acts: seq<Action>): seq<Json> {
    if acts == [] then []
    else (if acts[0].WriteJson? then [acts[0].doc] else []) + JsonOf(acts[1..])
  }

  /** The value a header has on the wire: the last one set before the header
      was sent. */
  function HeaderOf(acts: seq<Action>, key: string): Option<string> {
    if acts == [] || !acts[0].SetHeader? then None
    else match HeaderOf(acts[1..], key)
      case Some(v) => Some(v)
      case None => if acts[0].key == key then Some(acts[0].value) else None
  }

  /** http.Error(w, msg, code): a plain-text reply carrying msg and a newline. */
  function Error(msg: string, code: int): (acts: seq<Action>)
    ensures StatusOf(acts) == code
    ensures BodyOf(acts) == msg + "\n"
    ensures HeaderOf(acts, "Content-Type") == Some("text/plain; charset=utf-8")
    ensures HeaderOf(acts, "X-Content-Type-Options") == Some("nosniff")
  {
    var sent := [WriteHeader(code), WriteBody(msg + "\n")];
    var acts := [SetHeader("Content-Type", "text/plain; charset=utf-8"),
                 SetHeader("X-Content-Type-Options", "nosniff")] + sent;
    var tail := acts[1..];
    assert tail[1..] == sent && sent[1..][1..] == [];
    assert StatusOf(tail) == StatusOf(sent) == code;
    assert BodyOf(sent[1..]) == msg + "\n";
    assert BodyOf(acts) == BodyOf(tail) == BodyOf(sent) == msg + "\n";
    assert HeaderOf(sent, "Content-Type") == None;
    assert HeaderOf(tail, "Content-Type") == None;
    assert HeaderOf(tail, "X-Content-Type-Options") == Some("nosniff");
    acts
  }
}
