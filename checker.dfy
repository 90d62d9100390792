/** internal/proxy/checker.go: the per-address decision (doRequest, CheckOne),
    the pool that filters the successes (Check) and the collector that gathers
    them (AwaitCheck). The network round trips are inputs (Response), and so are
    the order in which the two probes of one address arrive (Probes.httpFirst),
    the order in which the workers finish the lines (a Pool schedule) and the
    branch the collector's select takes (Stop). */
module ProxyChecker {
  import opened Text
  import opened Errors
  import Address
  import Pool

  /** What one GET through the proxy yielded: the error of
      http.NewRequestWithContext, the error of client.Do, the response's status
      code, the error of io.ReadAll and the body that was read. */
  datatype Response = Response(
    requestErr: Option<GoError>,
    transportErr: Option<GoError>,
    status: int,
    readErr: Option<GoError>,
    body: string)

  /** The host part that the target must echo back: strings.Split(proxy, ":")[0]. */
  function Host(proxy: string): (h: string)
    ensures h <= proxy && ':' !in h
    ensures h == Before(proxy, ':')
  {
    Split(proxy, ':')[0]
  }

  /** doRequest: the checks run in order and the first that fails decides the
      error; the probe succeeds only when every one of them passes. */
  function DoRequest(proxy: string, resp: Response): (r: Outcome)
    ensures r.Pass? <==>
      resp.requestErr.None? && resp.transportErr.None? && resp.status == 200
      && resp.readErr.None? && Contains(resp.body, Before(proxy, ':'))
  {
    if resp.requestErr.Some? then Fail(resp.requestErr.value)
    else if resp.transportErr.Some? then Fail(Wrapped("request failed: ", resp.transportErr.value))
    else if resp.status != 200 then Fail(Plain("non-200 response: " + Itoa(resp.status)))
    else if resp.readErr.Some? then Fail(Wrapped("reading response body: ", resp.readErr.value))
    else if !Contains(resp.body, Host(proxy)) then Fail(Plain("proxy IP mismatch: " + proxy))
    else Pass
  }

  /** The error message of a failed probe names the first check that failed. */
  lemma DoRequestMessage(proxy: string, resp: Response)
    ensures resp.requestErr.Some? ==>
      DoRequest(proxy, resp).error.Message() == resp.requestErr.value.Message()
    ensures resp.requestErr.None? && resp.transportErr.Some? ==>
      DoRequest(proxy, resp).error.Message() == "request failed: " + resp.transportErr.value.Message()
    ensures resp.requestErr.None? && resp.transportErr.None? && resp.status != 200 ==>
      DoRequest(proxy, resp).error.Message() == "non-200 response: " + Itoa(resp.status)
    ensures resp.requestErr.None? && resp.transportErr.None? && resp.status == 200 && resp.readErr.Some? ==>
      DoRequest(proxy, resp).error.Message() == "reading response body: " + resp.readErr.value.Message()
    ensures (resp.requestErr.None? && resp.transportErr.None? && resp.status == 200 && resp.readErr.None?
             && !Contains(resp.body, Before(proxy, ':'))) ==>
      DoRequest(proxy, resp).error.Message() == "proxy IP mismatch: " + proxy
  {
  }

  /** The two probes of one address (scheme "http" and scheme "socks5") and the
      order in which their results reach CheckOne. */
  datatype Probes = Probes(http: Response, socks5: Response, httpFirst: bool)

  /** The two probe results in arrival order. */
  function Arrivals(proxy: string, probes: Probes): (a: seq<Outcome>)
    ensures |a| == 2
    ensures multiset(a) == multiset{DoRequest(proxy, probes.http), DoRequest(proxy, probes.socks5)}
  {
    var h := DoRequest(proxy, probes.http);
    var s := DoRequest(proxy, probes.socks5);
    if probes.httpFirst then [h, s] else [s, h]
  }

  /** The verdict CheckOne reaches on a line. */
  function Expected(line: string, probes: Probes): (v: Pool.Verdict)
    ensures v.proxy == Address.FindString(line)
    ensures v.err.Pass? <==>
      v.proxy != "" && (DoRequest(v.proxy, probes.http).Pass? || DoRequest(v.proxy, probes.socks5).Pass?)
  {
    var proxy := Address.FindString(line);
    if proxy == "" then Pool.Verdict("", Fail(Plain("invalid proxy url: " + line)))
    else
      var a := Arrivals(proxy, probes);
      if a[0].Pass? || a[1].Pass? then Pool.Verdict(proxy, Pass) else Pool.Verdict(proxy, a[1])
  }

  /** CheckOne: a line without an address fails before any probe starts; otherwise
      the address is probed over both schemes, the first success wins, and when
      both fail the error is the one that arrived second. */
  method CheckOne(line: string, probes: Probes) returns (proxy: string, err: Outcome)
    ensures proxy == Address.FindString(line)
    ensures proxy == "" ==> err == Fail(Plain("invalid proxy url: " + line))
    ensures proxy != "" ==>
      (err.Pass? <==> DoRequest(proxy, probes.http).Pass? || DoRequest(proxy, probes.socks5).Pass?)
    ensures proxy != "" && err.Fail? ==> err == Arrivals(proxy, probes)[1]
    ensures Pool.Verdict(proxy, err) == Expected(line, probes)
  {
    proxy := Address.FindString(line);
    if proxy == "" {
      return proxy, Fail(Plain("invalid proxy url: " + line));
    }
    var r := Arrivals(proxy, probes);
    assert r[0] in multiset(r) && r[1] in multiset(r);
    err := Pass;
    var i := 0;
    while i < 2
      invariant 0 <= i <= 2
      invariant forall k :: 0 <= k < i ==> r[k].Fail?
      invariant i > 0 ==> err == r[i - 1]
    {
      err := r[i];
      if err.Pass? {
        return proxy, Pass;
      }
      i := i + 1;
    }
  }

  /** The verdict of every line: the address extracted from it, passing when
      one of its probes did. */
  function Verdicts(lines: seq<string>, probes: seq<Probes>): (v: seq<Pool.Verdict>)
    requires |probes| == |lines|
    ensures |v| == |lines|
    ensures forall k :: 0 <= k < |lines| ==> v[k].proxy == Address.FindString(lines[k])
    ensures forall k :: 0 <= k < |lines| ==>
      (v[k].err.Pass? <==>
        v[k].proxy != "" && (DoRequest(v[k].proxy, probes[k].http).Pass? || DoRequest(v[k].proxy, probes[k].socks5).Pass?))
  {
    seq(|lines|, k requires 0 <= k < |lines| => Expected(lines[k], probes[k]))
  }

  /** Check: `concurrency` workers take lines until the input ends or the run is
      cancelled, and forward the address of every line whose CheckOne succeeded;
      failures are only logged. `order` is the order in which the lines were
      finished (all of them unless the run was cancelled). After every worker has
      stopped the result stream is closed and a single nil goes on the error stream. */
  method Check(concurrency: int, lines: seq<string>, probes: seq<Probes>, order: seq<nat>)
    returns (results: seq<string>, errs: seq<Outcome>)
    requires concurrency >= 0
    requires concurrency == 0 ==> order == []
    requires |probes| == |lines|
    requires Pool.IsSchedule(order, |lines|)
    ensures Pool.InRange(order, |lines|)
    ensures results == Pool.Forwarded(Verdicts(lines, probes), order)
    ensures errs == [Pass]
  {
    Pool.ScheduleInRange(order, |lines|);
    ghost var verdicts := Verdicts(lines, probes);
    results := [];
    var t := 0;
    while t < |order|
      invariant 0 <= t <= |order|
      invariant results == Pool.Forwarded(verdicts, order[..t])
    {
      var k := order[t];
      var p, e := CheckOne(lines[k], probes[k]);
      assert verdicts[k] == Expected(lines[k], probes[k]);
      if e.Pass? {
        results := results + [p];
      }
      assert order[..t + 1][..t] == order[..t];
      t := t + 1;
    }
    assert order[..t] == order;
    errs := [Pass];
  }

  /** What Check forwards is, as a multiset, part of the successful verdicts, and
      all of them when every line was taken. */
  lemma CheckForwardsSuccesses(lines: seq<string>, probes: seq<Probes>, order: seq<nat>)
    requires |probes| == |lines|
    requires Pool.IsSchedule(order, |lines|)
    ensures Pool.InRange(order, |lines|)
    ensures multiset(Pool.Forwarded(Verdicts(lines, probes), order))
      <= multiset(Pool.Successes(Verdicts(lines, probes)))
    ensures Pool.IsFullSchedule(order, |lines|) ==>
      multiset(Pool.Forwarded(Verdicts(lines, probes), order))
        == multiset(Pool.Successes(Verdicts(lines, probes)))
  {
    Pool.ForwardedIsSuccesses(Verdicts(lines, probes), order);
  }

  /** Each forwarded address was extracted from one of the lines the workers
      took, and one of its two probes confirmed it. */
  lemma CheckForwardsConfirmed(lines: seq<string>, probes: seq<Probes>, order: seq<nat>, p: string)
    requires |probes| == |lines|
    requires Pool.InRange(order, |lines|)
    requires p in Pool.Forwarded(Verdicts(lines, probes), order)
    ensures exists j :: (0 <= j < |order| && p != "" && Address.FindString(lines[order[j]]) == p
                          && (DoRequest(p, probes[order[j]].http).Pass? || DoRequest(p, probes[order[j]].socks5).Pass?))
  {
    var v := Verdicts(lines, probes);
    Pool.ForwardedSound(v, order, p);
    var j :| 0 <= j < |order| && v[order[j]].err.Pass? && v[order[j]].proxy == p;
  }

  /** The branch the collector's select chose when it stopped:
      Drained   it saw the result stream closed after taking every result;
      Cancelled it saw ctx.Done() after taking `after` results;
      Signalled it took the nil from the error stream after taking `after` results. */
  datatype Stop = Drained | Cancelled(after: nat) | Signalled(after: nat)

  /** The stops the collector can reach on a result stream that a pool of
      `concurrency` workers filled: the nil on the error stream is only sent once
      the result stream is closed, by which time at most `concurrency` results can
      still be waiting in its buffer. */
  predicate PossibleStop(stream: seq<string>, concurrency: nat, stop: Stop) {
    match stop
    case Drained => true
    case Cancelled(after) => after <= |stream|
    case Signalled(after) => |stream| - concurrency <= after <= |stream|
  }

  /** AwaitCheck as written: the results it returns and its error. */
  function Collected(stream: seq<string>, concurrency: nat, stop: Stop, ctxErr: GoError): (r: (seq<string>, Outcome))
    requires PossibleStop(stream, concurrency, stop)
    ensures r.0 <= stream
    ensures r.1 == Pass || r.1 == Fail(ctxErr)
    ensures stop.Drained? ==> r == (stream, Pass)
  {
    match stop
    case Drained => (stream, Pass)
    case Cancelled(after) => (stream[..after], Fail(ctxErr))
    case Signalled(after) => (stream[..after], Pass)
  }

  /** AwaitCheck: take results one at a time until the select sees the stream
      closed, the context done, or the error stream. */
  method AwaitCheck(stream: seq<string>, concurrency: nat, stop: Stop, ctxErr: GoError)
    returns (res: seq<string>, err: Outcome)
    requires PossibleStop(stream, concurrency, stop)
    ensures (res, err) == Collected(stream, concurrency, stop, ctxErr)
  {
    res := [];
    var i := 0;
    while true
      invariant 0 <= i <= |stream| && res == stream[..i]
      invariant (stop.Cancelled? || stop.Signalled?) ==> i <= stop.after
      decreases |stream| - i
    {
      if stop.Cancelled? && i == stop.after {
        return res, Fail(ctxErr);
      }
      if stop.Signalled? && i == stop.after {
        return res, Pass;
      }
      if i == |stream| {
        assert stream[..i] == stream;
        return res, Pass;
      }
      res := res + [stream[i]];
      i := i + 1;
    }
  }

  /** With one worker and one live address, the select may see the error stream
      while the address still sits in the result buffer: AwaitCheck then reports
      success and returns nothing. */
  lemma AwaitCheckDropsBufferedResult(ctxErr: GoError)
    ensures PossibleStop(["1.1.1.1:80"], 1, Signalled(0))
    ensures Collected(["1.1.1.1:80"], 1, Signalled(0), ctxErr) == ([], Pass)
  {
  }

  /** AwaitCheck as evidently intended: drain the result stream, and only then
      look at the error stream; only cancellation cuts the collection short. */
  function CollectedAll(stream: seq<string>, stop: Stop, ctxErr: GoError): (r: (seq<string>, Outcome))
    requires stop.Cancelled? ==> stop.after <= |stream|
    ensures r.0 <= stream
    ensures !stop.Cancelled? ==> r == (stream, Pass)
    ensures stop.Cancelled? ==> r == (stream[..stop.after], Fail(ctxErr))
  {
    if stop.Cancelled? then (stream[..stop.after], Fail(ctxErr)) else (stream, Pass)
  }

  method AwaitCheckDrained(stream: seq<string>, stop: Stop, ctxErr: GoError)
    returns (res: seq<string>, err: Outcome)
    requires stop.Cancelled? ==> stop.after <= |stream|
    ensures (res, err) == CollectedAll(stream, stop, ctxErr)
  {
    res := [];
    var i := 0;
    while i < |stream|
      invariant 0 <= i <= |stream| && res == stream[..i]
      invariant stop.Cancelled? ==> i <= stop.after
    {
      if stop.Cancelled? && i == stop.after {
        return res, Fail(ctxErr);
      }
      res := res + [stream[i]];
      i := i + 1;
    }
    assert stream[..i] == stream;
    if stop.Cancelled? {
      return res, Fail(ctxErr);
    }
    err := Pass;
  }

  /** With the draining collector, a run that was not cancelled returns exactly
      the addresses whose lines passed, each as often as it passed. */
  lemma {:induction false} AwaitAllAfterCheck(lines: seq<string>, probes: seq<Probes>, order: seq<nat>, stop: Stop, ctxErr: GoError)
    requires |probes| == |lines|
    requires Pool.IsFullSchedule(order, |lines|)
    requires !stop.Cancelled?
    ensures Pool.InRange(order, |lines|)
    ensures multiset(CollectedAll(Pool.Forwarded(Verdicts(lines, probes), order), stop, ctxErr).0)
      == multiset(Pool.Successes(Verdicts(lines, probes)))
  {
    Pool.ForwardedIsSuccesses(Verdicts(lines, probes), order);
  }
}
