/** internal/http-server/handler/check.go: the request limits, the JSON and the
    form endpoints, and runChecking, the pool both of them use. What the
    per-line checker returned for each line is an input (verdicts[k] for
    line k), and so is the order in which the pool's workers finished the lines. */
module CheckHandler {
  import opened Text
  import opened Errors
  import Http
  import Pool
  import Handler

  /** The most lines one API request may carry. */
  const OneTimeCheckLimit := 100

  /** request.Valid: a single "data" problem for an empty or an over-long
      request; an empty (non-nil) map otherwise. */
  function Valid(req: seq<string>): (problems: map<string, GoError>)
    ensures problems == map[] <==> 1 <= |req| <= OneTimeCheckLimit
    ensures problems.Keys <= {"data"}
    ensures |req| < 1 ==> problems["data"].Message() == "request cannot be empty"
    ensures |req| > OneTimeCheckLimit ==>
      problems["data"].Message() == "request cannot contain more than " + Itoa(OneTimeCheckLimit) + " lines"
  {
    var problems: map<string, GoError> := map[];
    if |req| < 1 then
      var r := problems["data" := Plain("request cannot be empty")];
      assert "data" in r;
      r
    else if |req| > OneTimeCheckLimit then
      var r := problems["data" := Plain("request cannot contain more than " + Itoa(OneTimeCheckLimit) + " lines")];
      assert "data" in r;
      r
    else problems
  }

  /** The limit is written out in decimal in the message. */
  lemma ValidTooLongMessage(req: seq<string>)
    requires |req| > OneTimeCheckLimit
    ensures Valid(req)["data"].Message() == "request cannot contain more than 100 lines"
  {
    assert NatToString(10) == "10";
    assert NatToString(100) == "100";
  }

  /** runChecking: one worker per queued line; each forwards the result of every
      successful check. The stream closes once every worker is done. */
  method RunChecking(lines: seq<string>, verdicts: seq<Pool.Verdict>, order: seq<nat>) returns (results: seq<string>)
    requires |verdicts| == |lines|
    requires Pool.IsSchedule(order, |lines|)
    ensures Pool.InRange(order, |lines|)
    ensures results == Pool.Forwarded(verdicts, order)
    ensures |results| <= |lines|
  {
    Pool.ScheduleInRange(order, |lines|);
    Pool.ForwardedLength(verdicts, order);
    results := [];
    var t := 0;
    while t < |order|
      invariant 0 <= t <= |order|
      invariant results == Pool.Forwarded(verdicts, order[..t])
    {
      var v := verdicts[order[t]];
      if v.err.Pass? {
        results := results + [v.proxy];
      }
      assert order[..t + 1][..t] == order[..t];
      t := t + 1;
    }
    assert order[..t] == order;
    assert |results| <= |lines| by {
      Pool.ScheduleLength(order, |lines|);
    }
  }

  /** The handlers' `for p := range results` loop. */
  method Collect(results: seq<string>) returns (resp: seq<string>)
    ensures resp == results
  {
    resp := [];
    var i := 0;
    while i < |results|
      invariant 0 <= i <= |results| && resp == results[..i]
    {
      resp := resp + [results[i]];
      i := i + 1;
    }
    assert results[..i] == results;
  }

  /** ProxyCheckApi: an undecodable body, and a request Valid objects to, get a
      400 JSON error and no line is checked; otherwise the successful lines go
      back as a JSON array with 200. `checked` are the lines handed to the pool. */
  method ProxyCheckApi(decoded: Result<seq<string>>, verdicts: seq<Pool.Verdict>, order: seq<nat>)
    returns (acts: seq<Http.Action>, checked: seq<string>)
    requires decoded.Ok? ==> |verdicts| == |decoded.value| && Pool.IsSchedule(order, |verdicts|)
    ensures decoded.Err? ==>
      checked == [] && acts == Handler.ResponseFail(Http.StatusBadRequest, Handler.Decode(decoded).error.Message(), None)
    ensures decoded.Ok? && Valid(decoded.value) != map[] ==>
      checked == [] && acts == Handler.ResponseFail(Http.StatusBadRequest, "invalid request", Some(Valid(decoded.value)))
    ensures decoded.Ok? && Valid(decoded.value) == map[] ==>
      checked == decoded.value && Pool.InRange(order, |verdicts|)
      && acts == Handler.ResponseSuccess(Pool.Forwarded(verdicts, order))
  {
    var req := Handler.Decode(decoded);
    if req.Err? {
      return Handler.ResponseFail(Http.StatusBadRequest, req.error.Message(), None), [];
    }
    var problems := Valid(req.value);
    if |problems| > 0 {
      return Handler.ResponseFail(Http.StatusBadRequest, "invalid request", Some(problems)), [];
    }
    checked := req.value;
    var results := RunChecking(checked, verdicts, order);
    var resp := Collect(results);
    acts := Handler.ResponseSuccess(resp);
  }

  /** What the form endpoint sends: a page rendered from a template, or an error
      page. */
  datatype WebReply = Page(acts: seq<Http.Action>) | ErrorPage(acts: seq<Http.Action>)

  /** A failed template execution: its error, and whether it had already written
      part of the page (an error while executing) or nothing (an error found
      before any output). */
  datatype TemplateFailure = TemplateFailure(err: GoError, partial: bool)

  const TableTemplate := "proxies_table.html.tmpl"

  /** The calls on the writer when executing the table template fails: the part
      of the page already written, if any, then renderFail's 500 page. */
  function TemplateFailed(rows: seq<string>, f: TemplateFailure): (acts: seq<Http.Action>)
    ensures Http.StatusOf(acts) == (if f.partial then Http.StatusOK else Http.StatusInternalServerError)
    ensures Http.BodyOf(acts) == f.err.Message() + "\n"
  {
    var page := Handler.RenderFail(f.err.Message(), Http.StatusInternalServerError);
    if f.partial then
      var acts := [Http.ExecuteTemplate(TableTemplate, rows)] + page;
      assert acts[1..] == page;
      acts
    else page
  }

  /** ProxyCheckWeb: a form that does not parse, or an empty "proxies" field, gets
      a 400 text page; otherwise the field is split on "\n", with no trimming and
      no limit on the number of lines, every line is checked, and the successes
      are rendered into the table template. When executing the template fails,
      renderFail's 500 page follows whatever the template had written: the
      client gets the 500 only when nothing had been written, and otherwise the
      partial page with an implicit 200 and the error text after it. */
  method ProxyCheckWeb(parseErr: Option<GoError>, proxies: string, verdicts: seq<Pool.Verdict>, order: seq<nat>,
                       templateErr: Option<TemplateFailure>)
    returns (reply: WebReply, checked: seq<string>)
    requires parseErr.None? && proxies != "" ==>
      |verdicts| == |Split(proxies, '\n')| && Pool.IsSchedule(order, |verdicts|)
    ensures parseErr.Some? ==>
      checked == [] && reply == ErrorPage(Handler.RenderFail("Error parsing form: " + parseErr.value.Message(), Http.StatusBadRequest))
    ensures parseErr.None? && proxies == "" ==>
      checked == [] && reply == ErrorPage(Handler.RenderFail("Proxies parameter is missing", Http.StatusBadRequest))
    ensures parseErr.None? && proxies != "" ==> checked == Split(proxies, '\n') && Pool.InRange(order, |verdicts|)
    ensures parseErr.None? && proxies != "" && templateErr.None? ==>
      reply == Page([Http.ExecuteTemplate(TableTemplate, Pool.Forwarded(verdicts, order))])
    ensures parseErr.None? && proxies != "" && templateErr.Some? ==>
      reply == ErrorPage(TemplateFailed(Pool.Forwarded(verdicts, order), templateErr.value))
      && Http.StatusOf(reply.acts) == (if templateErr.value.partial then Http.StatusOK else Http.StatusInternalServerError)
  {
    if parseErr.Some? {
      return ErrorPage(Handler.RenderFail("Error parsing form: " + parseErr.value.Message(), Http.StatusBadRequest)), [];
    }
    if proxies == "" {
      return ErrorPage(Handler.RenderFail("Proxies parameter is missing", Http.StatusBadRequest)), [];
    }
    checked := Split(proxies, '\n');
    var results := RunChecking(checked, verdicts, order);
    var resp := Collect(results);
    if templateErr.Some? {
      return ErrorPage(TemplateFailed(resp, templateErr.value)), checked;
    }
    reply := Page([Http.ExecuteTemplate(TableTemplate, resp)]);
  }
}
