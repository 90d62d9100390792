/** internal/http-server/middleware/rate_limiting.go: one token bucket per client
    host, created on the host's first request and forgotten by a periodic sweep
    once the host has been quiet for more than three minutes.

    Time is an integer count of nanoseconds (time.Time and time.Duration). The
    bucket, rate.NewLimiter(1, 1), holds at most one token and refills one token
    per second; it is kept as the time of the last granted token. A refused Allow
    leaves the bucket as it was. The host that net.SplitHostPort extracts from
    RemoteAddr is an input: None when SplitHostPort fails. */
module RateLimiting {
  import opened Text
  import Http

  const Second: int := 1_000_000_000
  const Minute: int := 60 * Second
  /** How long a host may stay quiet before the sweep forgets it. */
  const StaleAfter: int := 3 * Minute

  /** One entry of the clients map: the limiter's state and lastSeen. */
  datatype Client = Client(lastGrant: Option<int>, lastSeen: int)

  /** limiter.Allow() at time now. */
  predicate Allows(c: Client, now: int) {
    c.lastGrant.None? || now - c.lastGrant.value >= Second
  }

  /** The reply to a rejected request. */
  function TooMany(): (acts: seq<Http.Action>)
    ensures Http.StatusOf(acts) == Http.StatusTooManyRequests
    ensures Http.BodyOf(acts) == "too many request\n"
  {
    Http.Error("too many request", Http.StatusTooManyRequests)
  }

  /** A request from host ip at time now: the entry is created when missing,
      lastSeen becomes now, and the bucket decides between next and 429. */
  function Admit(clients: map<string, Client>, ip: string, now: int): (r: (Http.Reply, map<string, Client>))
    ensures ip in r.1 && r.1[ip].lastSeen == now
    ensures r.1.Keys == clients.Keys + {ip}
    ensures forall other :: other in clients && other != ip ==> r.1[other] == clients[other]
    ensures r.0.Next? <==> ip !in clients || Allows(clients[ip], now)
    ensures r.0.Next? ==> r.1[ip].lastGrant == Some(now)
    ensures r.0.Respond? ==> r.0.actions == TooMany() && r.1[ip].lastGrant == clients[ip].lastGrant
  {
    var c := if ip in clients then clients[ip] else Client(None, 0);
    if Allows(c, now) then (Http.Next, clients[ip := Client(Some(now), now)])
    else (Http.Respond(TooMany()), clients[ip := c.(lastSeen := now)])
  }

  /** A host is stale when it has been quiet for strictly more than three minutes. */
  predicate Stale(c: Client, now: int) {
    now - c.lastSeen > StaleAfter
  }

  /** One pass of the sweep at time now. */
  function Swept(clients: map<string, Client>, now: int): (r: map<string, Client>)
    ensures forall ip :: ip in r <==> ip in clients && !Stale(clients[ip], now)
    ensures forall ip :: ip in r ==> r[ip] == clients[ip]
  {
    map ip | ip in clients && !Stale(clients[ip], now) :: clients[ip]
  }

  /** The clients map and the handler around it. */
  class Limiter {
    var clients: map<string, Client>

    constructor()
      ensures clients == map[]
    {
      clients := map[];
    }

    /** The handler: a RemoteAddr without a host gives a bare 500, and the map is
        not touched; otherwise Admit decides. */
    method Handle(host: Option<string>, now: int) returns (reply: Http.Reply)
      modifies this
      ensures host.None? ==> reply == Http.Respond([Http.WriteHeader(Http.StatusInternalServerError)])
      ensures host.None? ==> clients == old(clients)
      ensures host.Some? ==> (reply, clients) == Admit(old(clients), host.value, now)
    {
      if host.None? {
        return Http.Respond([Http.WriteHeader(Http.StatusInternalServerError)]);
      }
      var ip := host.value;
      ghost var before := if ip in clients then clients[ip] else Client(None, 0);
      if ip !in clients {
        clients := clients[ip := Client(None, 0)];
      }
      var c := clients[ip].(lastSeen := now);
      clients := clients[ip := c];
      assert clients == old(clients)[ip := before.(lastSeen := now)];
      if !Allows(c, now) {
        return Http.Respond(TooMany());
      }
      clients := clients[ip := c.(lastGrant := Some(now))];
      assert clients == old(clients)[ip := Client(Some(now), now)];
      reply := Http.Next;
    }

    /** One pass of the sweep goroutine: every stale entry is deleted. */
    method Sweep(now: int)
      modifies this
      ensures clients == Swept(old(clients), now)
    {
      var pending := clients.Keys;
      while pending != {}
        invariant pending <= old(clients).Keys
        invariant forall ip :: ip in clients <==>
          ip in old(clients) && (ip in pending || !Stale(old(clients)[ip], now))
        invariant forall ip :: ip in clients ==> clients[ip] == old(clients)[ip]
        decreases |pending|
      {
        var ip :| ip in pending;
        if Stale(clients[ip], now) {
          clients := clients - {ip};
        }
        pending := pending - {ip};
      }
      assert clients == Swept(old(clients), now);
    }
  }

  /** The handler's test: a new host is admitted, a second request within the
      second is refused with 429, and a request a second after the grant is
      admitted again. */
  lemma {:induction false} AdmitSequence(clients: map<string, Client>, ip: string, t0: int, t1: int, t2: int)
    requires ip !in clients
    requires t0 <= t1 < t0 + Second && t2 >= t0 + Second
    ensures Admit(clients, ip, t0).0.Next?
    ensures Admit(Admit(clients, ip, t0).1, ip, t1).0 == Http.Respond(TooMany())
    ensures Admit(Admit(Admit(clients, ip, t0).1, ip, t1).1, ip, t2).0.Next?
  {
    var m0 := Admit(clients, ip, t0).1;
    assert m0[ip].lastGrant == Some(t0);
    var m1 := Admit(m0, ip, t1).1;
    assert m1[ip].lastGrant == Some(t0);
  }

  /** Refusals do not push the next grant back: whatever happens in between, a
      host granted at g is admitted again at any time from g + 1 s on. */
  lemma {:induction false} RefusalsKeepGrant(clients: map<string, Client>, ip: string, times: seq<int>, g: int)
    requires ip in clients && clients[ip].lastGrant == Some(g)
    requires forall k :: 0 <= k < |times| ==> times[k] < g + Second
    ensures ip in Replay(clients, ip, times)
    ensures Replay(clients, ip, times)[ip].lastGrant == Some(g)
    ensures forall later :: later >= g + Second ==> Admit(Replay(clients, ip, times), ip, later).0.Next?
    decreases |times|
  {
    if times != [] {
      var m := Admit(clients, ip, times[0]).1;
      RefusalsKeepGrant(m, ip, times[1..], g);
    }
  }

  /** The map after a series of requests from one host. */
  function Replay(clients: map<string, Client>, ip: string, times: seq<int>): map<string, Client>
    decreases |times|
  {
    if times == [] then clients else Replay(Admit(clients, ip, times[0]).1, ip, times[1..])
  }

  /** A host the sweep forgot is a new host again, and is admitted. */
  lemma EvictedIsAdmitted(clients: map<string, Client>, ip: string, now: int, later: int)
    requires ip in clients && Stale(clients[ip], now)
    ensures ip !in Swept(clients, now)
    ensures Admit(Swept(clients, now), ip, later).0.Next?
  {
  }
}
