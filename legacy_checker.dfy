/** pkg/checker/checker.go: the checker of the first, stand-alone version of
    the tool. One http.Client is shared by every check; each check points its
    transport at the proxy under test and fetches the endpoint, and the proxy is
    alive when the body is exactly its host. What the GET and the body read
    return are inputs. */
module LegacyChecker {
  import opened Text
  import opened Errors

  const Second: int := 1_000_000_000
  const Uint64: int := 0x1_0000_0000_0000_0000

  /** time.Duration(timeout * uint(time.Second)): the product wraps around at
      2^64 as a uint, and the conversion to the signed Duration reads the top
      bit as the sign. */
  function Timeout(seconds: nat): (d: int)
    requires seconds < Uint64
    ensures -Uint64 / 2 <= d < Uint64 / 2
    ensures seconds * Second < Uint64 / 2 ==> d == seconds * Second
  {
    var product := (seconds * Second) % Uint64;
    if product < Uint64 / 2 then product else product - Uint64
  }

  /** A timeout too large for a Duration does not saturate: 18446744074
      seconds is about 0.29 s. */
  lemma TimeoutWraps()
    ensures Timeout(18446744074) == 290448384
  {
  }

  class Checker {
    /** The proxy the client's transport goes through; None before the first
        check. */
    var transport: Option<string>
    const endpoint: string
    const timeout: int

    constructor(endpoint: string, seconds: nat)
      requires seconds < Uint64
      ensures this.endpoint == endpoint && timeout == Timeout(seconds) && transport == None
    {
      this.endpoint := endpoint;
      timeout := Timeout(seconds);
      transport := None;
    }

    /** Check. The address must contain ':' (the slice expression panics
        otherwise). A failed GET is (false, err); otherwise the read's error is
        dropped and the proxy is alive iff the body is the text before the
        first ':'. */
    method Check(proxy: string, getErr: Outcome, body: string, readErr: Outcome) returns (alive: bool, err: Outcome)
      requires ':' in proxy
      modifies this
      ensures transport == Some(proxy)
      ensures getErr.Fail? ==> !alive && err == getErr
      ensures getErr.Pass? ==> err == Pass && (alive <==> body == Before(proxy, ':'))
    {
      transport := Some(proxy);
      if getErr.Fail? {
        return false, getErr;
      }
      var host := Before(proxy, ':');
      alive := body == host;
      err := Pass;
    }
  }

  /** Whether a body proves the proxy alive. */
  predicate Alive(proxy: string, body: string) {
    body == Before(proxy, ':')
  }

  /** The rule is exact equality: a body that only contains the host, as the
      newer checker accepts, is not enough, while every body this rule accepts
      contains the host. */
  lemma AliveIsExact(proxy: string, body: string)
    ensures Alive(proxy, body) ==> Contains(body, Before(proxy, ':'))
    ensures Contains("ip " + "1.2.3.4", "1.2.3.4") && !Alive("1.2.3.4:80", "ip " + "1.2.3.4")
  {
    if Alive(proxy, body) {
      assert OccursAt(body, Before(proxy, ':'), 0);
    }
    var b := "ip " + "1.2.3.4";
    assert OccursAt(b, "1.2.3.4", 3);
    assert Before("1.2.3.4:80", ':') == "1.2.3.4" by {
      BeforeOf("1.2.3.4", "80", ':');
      assert "1.2.3.4" + [':'] + "80" == "1.2.3.4:80";
    }
  }
}
