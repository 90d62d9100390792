/** cmd/main.go: the first, stand-alone version of the tool. Lines of the proxy
    list that match an anchored IPv4:port pattern are queued, ten workers check
    them through one shared checker, a collector prints "<proxy> failed" for
    every dead one and gathers the live ones, and a last loop prints the live
    list. The scanner's lines, what each check's GET and body read return, and
    the order in which the workers hand in their results are inputs. */
module LegacyCli {
  import opened Text
  import Errors
  import Pool
  import LegacyChecker

  /** One alternative of `[0-9]|[1-9][0-9]|1[0-9]{2}|2[0-4][0-9]|25[0-5]`,
      the octet of the pattern. */
  predicate IsOctet(s: string) {
    || (|s| == 1 && IsDigit(s[0]))
    || (|s| == 2 && '1' <= s[0] <= '9' && IsDigit(s[1]))
    || (|s| == 3 && s[0] == '1' && IsDigit(s[1]) && IsDigit(s[2]))
    || (|s| == 3 && s[0] == '2' && '0' <= s[1] <= '4' && IsDigit(s[2]))
    || (|s| == 3 && s[0] == '2' && s[1] == '5' && '0' <= s[2] <= '5')
  }

  /** `[0-9]+`, the port of the pattern. */
  predicate IsPort(s: string) {
    |s| >= 1 && AllDigits(s)
  }

  /** A line built the way the pattern reads: three octets each followed by a
      dot, a fourth octet, a colon and the port. */
  function Address(o1: string, o2: string, o3: string, o4: string, port: string): string {
    o1 + "." + o2 + "." + o3 + "." + o4 + ":" + port
  }

  /** The language of the pattern of line 64: `^` and `$` anchor it to the
      whole line. */
  ghost predicate InPattern(line: string) {
    exists o1, o2, o3, o4, port :: IsOctet(o1) && IsOctet(o2) && IsOctet(o3) && IsOctet(o4) && IsPort(port)
      && line == Address(o1, o2, o3, o4, port)
  }

  /** regexpcmp.MatchString(line), decided by cutting the line at its dots
      and at the colon of the last piece. */
  predicate Accepts(line: string) {
    var parts := Split(line, '.');
    |parts| == 4 && IsOctet(parts[0]) && IsOctet(parts[1]) && IsOctet(parts[2])
    && var o := Before(parts[3], ':');
    |o| < |parts[3]| && IsOctet(o) && IsPort(parts[3][|o| + 1..])
  }

  /** The value of a three-digit string. */
  lemma ParseThree(s: string)
    requires |s| == 3 && AllDigits(s)
    ensures ParseNat(s) == 100 * DigitValue(s[0]) + 10 * DigitValue(s[1]) + DigitValue(s[2])
  {
    assert s[..2][..1] == s[..1] && s[..2][1] == s[1] && s[..1][..0] == [];
    assert ParseNat(s[..1]) == DigitValue(s[0]);
    assert ParseNat(s[..2]) == 10 * DigitValue(s[0]) + DigitValue(s[1]);
  }

  /** The value of a two-digit string. */
  lemma ParseTwo(s: string)
    requires |s| == 2 && AllDigits(s)
    ensures ParseNat(s) == 10 * DigitValue(s[0]) + DigitValue(s[1])
  {
    assert s[..1][..0] == [];
    assert ParseNat(s[..1]) == DigitValue(s[0]);
  }

  /** The octet alternatives are exactly the decimal numbers 0 to 255 written
      without a leading zero. */
  lemma OctetIsByte(s: string)
    ensures IsOctet(s) <==> 1 <= |s| <= 3 && AllDigits(s) && (|s| > 1 ==> s[0] != '0') && ParseNat(s) <= 255
  {
    if |s| == 1 && AllDigits(s) {
      assert s[..0] == [];
    } else if |s| == 2 && AllDigits(s) {
      ParseTwo(s);
    } else if |s| == 3 && AllDigits(s) {
      ParseThree(s);
    }
  }

  /** Every number from 0 to 255 has its octet, and an octet is the one way of
      writing its number. */
  lemma OctetOfByte(n: nat)
    requires n <= 255
    ensures IsOctet(NatToString(n))
    ensures forall s :: IsOctet(s) && ParseNat(s) == n ==> s == NatToString(n)
  {
    var s := NatToString(n);
    ParseNatToString(n);
    if n >= 10 {
      assert |NatToString(n / 10)| <= 2 by {
        if n / 10 >= 10 {
          assert |NatToString(n / 10 / 10)| == 1;
        }
      }
    }
    OctetIsByte(s);
    forall t | IsOctet(t) && ParseNat(t) == n ensures t == NatToString(n) {
      OctetIsByte(t);
      NatToStringParse(t);
    }
  }

  lemma JoinFour(parts: seq<string>)
    requires |parts| == 4
    ensures Join(parts, '.') == parts[0] + "." + parts[1] + "." + parts[2] + "." + parts[3]
  {
    var p1, p2 := parts[1..], parts[1..][1..];
    assert p2[1..] == [parts[3]] && p2[0] == parts[2] && p1[0] == parts[1];
    assert Join(p2, '.') == parts[2] + "." + parts[3];
    assert Join(p1, '.') == parts[1] + "." + (parts[2] + "." + parts[3]);
  }

  lemma DigitsHaveNoSeparator(s: string)
    requires AllDigits(s)
    ensures '.' !in s && ':' !in s
  {
  }

  /** An accepted line is in the pattern's language. */
  lemma AcceptedInPattern(line: string)
    requires Accepts(line)
    ensures InPattern(line)
  {
    var parts := Split(line, '.');
    JoinSplit(line, '.');
    JoinFour(parts);
    var o := Before(parts[3], ':');
    var port := parts[3][|o| + 1..];
    assert parts[3] == o + ":" + port;
    assert line == Address(parts[0], parts[1], parts[2], o, port);
  }

  /** Every line of the pattern's language is accepted. */
  lemma PatternAccepted(o1: string, o2: string, o3: string, o4: string, port: string)
    requires IsOctet(o1) && IsOctet(o2) && IsOctet(o3) && IsOctet(o4) && IsPort(port)
    ensures Split(Address(o1, o2, o3, o4, port), '.') == [o1, o2, o3, o4 + ":" + port]
    ensures Accepts(Address(o1, o2, o3, o4, port))
  {
    OctetIsByte(o1);
    OctetIsByte(o2);
    OctetIsByte(o3);
    OctetIsByte(o4);
    DigitsHaveNoSeparator(o1);
    DigitsHaveNoSeparator(o2);
    DigitsHaveNoSeparator(o3);
    DigitsHaveNoSeparator(o4);
    DigitsHaveNoSeparator(port);
    var last := o4 + ":" + port;
    var parts := [o1, o2, o3, last];
    JoinFour(parts);
    assert Address(o1, o2, o3, o4, port) == Join(parts, '.');
    assert forall k :: 0 <= k < 4 ==> '.' !in parts[k];
    SplitJoin(parts, '.');
    BeforeOf(o4, port, ':');
    assert last[|o4| + 1..] == port;
  }

  /** Accepts decides the language of the pattern: both directions. */
  lemma AcceptsIsPattern(line: string)
    ensures Accepts(line) <==> InPattern(line)
  {
    if Accepts(line) {
      AcceptedInPattern(line);
    }
    if InPattern(line) {
      var o1, o2, o3, o4, port :| IsOctet(o1) && IsOctet(o2) && IsOctet(o3) && IsOctet(o4) && IsPort(port)
        && line == Address(o1, o2, o3, o4, port);
      PatternAccepted(o1, o2, o3, o4, port);
    }
  }

  /** A typical proxy line is accepted. */
  lemma AcceptedExample()
    ensures Accepts("192.168.0.1:8080")
  {
    PatternAccepted("192", "168", "0", "1", "8080");
    assert Address("192", "168", "0", "1", "8080") == "192.168.0.1:8080";
  }

  /** Octets above 255, leading zeros and surrounding spaces are none of the
      alternatives. */
  lemma OctetCases()
    ensures IsOctet("0") && IsOctet("9") && IsOctet("10") && IsOctet("199") && IsOctet("249") && IsOctet("255")
    ensures !IsOctet("256") && !IsOctet("01") && !IsOctet("00") && !IsOctet(" 1") && !IsOctet("1000") && !IsOctet("")
  {
  }

  /** The port has no bound: after four octets and a colon, any run of
      digits will do and nothing else (short of more dots) will. */
  lemma AnyPort(o1: string, o2: string, o3: string, o4: string, port: string)
    requires IsOctet(o1) && IsOctet(o2) && IsOctet(o3) && IsOctet(o4) && '.' !in port
    ensures Accepts(Address(o1, o2, o3, o4, port)) <==> IsPort(port)
  {
    if IsPort(port) {
      PatternAccepted(o1, o2, o3, o4, port);
    } else {
      NoPort(o1, o2, o3, o4, port);
    }
  }

  /** With four octets the line stands or falls by what follows the last one. */
  lemma NoPort(o1: string, o2: string, o3: string, o4: string, rest: string)
    requires IsOctet(o1) && IsOctet(o2) && IsOctet(o3) && IsOctet(o4) && '.' !in rest && !IsPort(rest)
    ensures !Accepts(Address(o1, o2, o3, o4, rest)) && !Accepts(o1 + "." + o2 + "." + o3 + "." + o4)
  {
    BadPort(o1, o2, o3, o4, rest);
    NoColon(o1, o2, o3, o4);
  }

  lemma BadPort(o1: string, o2: string, o3: string, o4: string, rest: string)
    requires IsOctet(o1) && IsOctet(o2) && IsOctet(o3) && IsOctet(o4) && '.' !in rest && !IsPort(rest)
    ensures !Accepts(Address(o1, o2, o3, o4, rest))
  {
    OctetIsByte(o1);
    OctetIsByte(o2);
    OctetIsByte(o3);
    OctetIsByte(o4);
    DigitsHaveNoSeparator(o1);
    DigitsHaveNoSeparator(o2);
    DigitsHaveNoSeparator(o3);
    DigitsHaveNoSeparator(o4);
    var last := o4 + ":" + rest;
    var parts := [o1, o2, o3, last];
    JoinFour(parts);
    assert Address(o1, o2, o3, o4, rest) == Join(parts, '.');
    assert forall k :: 0 <= k < 4 ==> '.' !in parts[k];
    SplitJoin(parts, '.');
    BeforeOf(o4, rest, ':');
    assert last[|o4| + 1..] == rest;
  }

  lemma NoColon(o1: string, o2: string, o3: string, o4: string)
    requires IsOctet(o1) && IsOctet(o2) && IsOctet(o3) && IsOctet(o4)
    ensures !Accepts(o1 + "." + o2 + "." + o3 + "." + o4)
  {
    OctetIsByte(o1);
    OctetIsByte(o2);
    OctetIsByte(o3);
    OctetIsByte(o4);
    DigitsHaveNoSeparator(o1);
    DigitsHaveNoSeparator(o2);
    DigitsHaveNoSeparator(o3);
    DigitsHaveNoSeparator(o4);
    var parts := [o1, o2, o3, o4];
    JoinFour(parts);
    assert forall k :: 0 <= k < 4 ==> '.' !in parts[k];
    SplitJoin(parts, '.');
    BeforeAll(o4, ':');
  }

  /** A line whose text before the first dot is no octet is rejected: this is
      how the anchors refuse a leading space or a longer number. */
  lemma BadFirstOctet(first: string, rest: string)
    requires '.' !in first && !IsOctet(first)
    ensures !Accepts(first + "." + rest)
  {
    SplitCons(first, rest, '.');
  }

  /** The lines the scanner goroutine sends on jobs: the accepted ones, in
      scan order. */
  function Queued(lines: seq<string>): seq<string> {
    if lines == [] then []
    else Queued(lines[..|lines| - 1]) + (if Accepts(lines[|lines| - 1]) then [lines[|lines| - 1]] else [])
  }

  /** The scanner loop: rejected lines are skipped and accepted ones sent. */
  method Queue(lines: seq<string>) returns (jobs: seq<string>)
    ensures jobs == Queued(lines)
  {
    jobs := [];
    var i := 0;
    while i < |lines|
      invariant 0 <= i <= |lines| && jobs == Queued(lines[..i])
    {
      assert lines[..i + 1][..i] == lines[..i];
      var proxy := lines[i];
      i := i + 1;
      if !Accepts(proxy) {
        continue;
      }
      jobs := jobs + [proxy];
    }
    assert lines[..i] == lines;
  }

  /** Exactly the accepted lines are queued. */
  lemma {:induction false} QueuedMembers(lines: seq<string>)
    ensures forall x :: x in Queued(lines) <==> x in lines && Accepts(x)
    decreases |lines|
  {
    if lines != [] {
      var init := lines[..|lines| - 1];
      QueuedMembers(init);
      assert lines == init + [lines[|lines| - 1]];
    }
  }

  /** A list of accepted lines is queued whole. */
  lemma {:induction false} QueuedAll(lines: seq<string>)
    requires forall k :: 0 <= k < |lines| ==> Accepts(lines[k])
    ensures Queued(lines) == lines
    decreases |lines|
  {
    if lines != [] {
      var init := lines[..|lines| - 1];
      QueuedAll(init);
      assert lines == init + [lines[|lines| - 1]];
    }
  }

  /** The queue of a file is the queue of its start followed by the queue of
      its rest: order is kept. */
  lemma {:induction false} QueuedConcat(lines: seq<string>, more: seq<string>)
    ensures Queued(lines + more) == Queued(lines) + Queued(more)
    decreases |more|
  {
    if more != [] {
      var init := more[..|more| - 1];
      QueuedConcat(lines, init);
      assert (lines + more)[..|lines + more| - 1] == lines + init;
    } else {
      assert lines + more == lines;
    }
  }

  /** Every accepted line holds the ':' that the checker cuts the host at. */
  lemma AcceptedHasColon(line: string)
    requires Accepts(line)
    ensures ':' in line
  {
    var parts := Split(line, '.');
    JoinSplit(line, '.');
    JoinFour(parts);
    var o := Before(parts[3], ':');
    assert parts[3][|o|] == ':';
    assert line[|line| - |parts[3]| + |o|] == ':';
  }

  /** What a worker sends on results: whether the check found the proxy
      alive, and the proxy. */
  datatype Result = Result(alive: bool, proxy: string)

  /** The result for job k: its check is alive when the GET succeeded and the
      body is the host; the check's error is dropped. */
  function ResultOf(jobs: seq<string>, gets: seq<Errors.Outcome>, bodies: seq<string>, k: nat): Result
    requires k < |jobs| && |gets| == |jobs| && |bodies| == |jobs|
  {
    Result(gets[k].Pass? && LegacyChecker.Alive(jobs[k], bodies[k]), jobs[k])
  }

  /** The results in the order the workers hand them in. */
  function Delivered(jobs: seq<string>, gets: seq<Errors.Outcome>, bodies: seq<string>, order: seq<nat>): seq<Result>
    requires |gets| == |jobs| && |bodies| == |jobs| && Pool.InRange(order, |jobs|)
  {
    if order == [] then []
    else Delivered(jobs, gets, bodies, order[..|order| - 1]) + [ResultOf(jobs, gets, bodies, order[|order| - 1])]
  }

  /** The ten workers, taken one result at a time in the order they hand
      them in. Every check goes through the one shared checker, whose
      transport ends up at the proxy checked last. */
  method Work(c: LegacyChecker.Checker, jobs: seq<string>, gets: seq<Errors.Outcome>, bodies: seq<string>, order: seq<nat>)
    returns (results: seq<Result>)
    requires |gets| == |jobs| && |bodies| == |jobs|
    requires forall k :: 0 <= k < |jobs| ==> ':' in jobs[k]
    requires Pool.IsFullSchedule(order, |jobs|)
    modifies c
    ensures Pool.InRange(order, |jobs|)
    ensures results == Delivered(jobs, gets, bodies, order)
    ensures order != [] ==> c.transport == Some(jobs[order[|order| - 1]])
    ensures order == [] ==> c.transport == old(c.transport)
  {
    Pool.ScheduleInRange(order, |jobs|);
    results := [];
    var i := 0;
    while i < |order|
      invariant 0 <= i <= |order| && results == Delivered(jobs, gets, bodies, order[..i])
      invariant i > 0 ==> c.transport == Some(jobs[order[i - 1]])
      invariant i == 0 ==> c.transport == old(c.transport)
    {
      assert order[..i + 1][..i] == order[..i];
      var k := order[i];
      var alive, _ := c.Check(jobs[k], gets[k], bodies[k], Errors.Pass);
      results := results + [Result(alive, jobs[k])];
      i := i + 1;
    }
    assert order[..i] == order;
  }

  function Proxies(results: seq<Result>): seq<string> {
    if results == [] then [] else Proxies(results[..|results| - 1]) + [results[|results| - 1].proxy]
  }

  /** The jobs as verdicts that all pass, so that the pool's stream is the
      stream of every job. */
  function AllPass(jobs: seq<string>): (v: seq<Pool.Verdict>)
    ensures |v| == |jobs| && forall k :: 0 <= k < |jobs| ==> v[k] == Pool.Verdict(jobs[k], Errors.Pass)
  {
    seq(|jobs|, k requires 0 <= k < |jobs| => Pool.Verdict(jobs[k], Errors.Pass))
  }

  lemma {:induction false} ProxiesForwarded(jobs: seq<string>, gets: seq<Errors.Outcome>, bodies: seq<string>, order: seq<nat>)
    requires |gets| == |jobs| && |bodies| == |jobs| && Pool.InRange(order, |jobs|)
    ensures Proxies(Delivered(jobs, gets, bodies, order)) == Pool.Forwarded(AllPass(jobs), order)
    decreases |order|
  {
    if order != [] {
      var init := order[..|order| - 1];
      ProxiesForwarded(jobs, gets, bodies, init);
      var d := Delivered(jobs, gets, bodies, order);
      assert d[..|d| - 1] == Delivered(jobs, gets, bodies, init);
    }
  }

  lemma {:induction false} SuccessesAllPass(jobs: seq<string>)
    ensures Pool.Successes(AllPass(jobs)) == jobs
    decreases |jobs|
  {
    if jobs != [] {
      var init := jobs[..|jobs| - 1];
      SuccessesAllPass(init);
      assert AllPass(jobs)[..|jobs| - 1] == AllPass(init);
      assert jobs == init + [jobs[|jobs| - 1]];
    }
  }

  /** Every queued line yields exactly one result, whatever its check
      returned and whatever order the workers finish in; each result says
      alive exactly when the GET succeeded and the body was the host. */
  lemma EveryJobReported(jobs: seq<string>, gets: seq<Errors.Outcome>, bodies: seq<string>, order: seq<nat>)
    requires |gets| == |jobs| && |bodies| == |jobs| && Pool.IsFullSchedule(order, |jobs|)
    ensures Pool.InRange(order, |jobs|)
    ensures multiset(Proxies(Delivered(jobs, gets, bodies, order))) == multiset(jobs)
  {
    Pool.ForwardedIsSuccesses(AllPass(jobs), order);
    ProxiesForwarded(jobs, gets, bodies, order);
    SuccessesAllPass(jobs);
  }

  /** The i-th result handed in is the one of the i-th job in the order. */
  lemma {:induction false} DeliveredAt(jobs: seq<string>, gets: seq<Errors.Outcome>, bodies: seq<string>, order: seq<nat>, i: nat)
    requires |gets| == |jobs| && |bodies| == |jobs| && Pool.InRange(order, |jobs|) && i < |order|
    ensures |Delivered(jobs, gets, bodies, order)| == |order|
    ensures Delivered(jobs, gets, bodies, order)[i] == Result(gets[order[i]].Pass? && bodies[order[i]] == Before(jobs[order[i]], ':'), jobs[order[i]])
    decreases |order|
  {
    var init := order[..|order| - 1];
    if i < |init| {
      DeliveredAt(jobs, gets, bodies, init, i);
    } else if init != [] {
      DeliveredAt(jobs, gets, bodies, init, 0);
    }
  }

  /** The proxy of a result that has the given liveness, or nothing. */
  function Kept(r: Result, alive: bool): seq<string> {
    if r.alive == alive then [r.proxy] else []
  }

  /** The proxies of the live results, in the order they came in. */
  function AliveList(results: seq<Result>): seq<string> {
    if results == [] then []
    else AliveList(results[..|results| - 1]) + Kept(results[|results| - 1], true)
  }

  /** The proxies of the dead results, in the order they came in. */
  function DeadList(results: seq<Result>): seq<string> {
    if results == [] then []
    else DeadList(results[..|results| - 1]) + Kept(results[|results| - 1], false)
  }

  /** The line `fmt.Printf("%s failed\n", proxy)` prints. */
  function FailedLine(proxy: string): string {
    proxy + " failed"
  }

  /** The collector goroutine: a dead result is printed as failed at once, a
      live one is appended to alive. */
  method Collect(results: seq<Result>) returns (alive: seq<string>, printed: seq<string>)
    ensures alive == AliveList(results)
    ensures |printed| == |DeadList(results)|
    ensures forall k :: 0 <= k < |printed| ==> printed[k] == FailedLine(DeadList(results)[k])
  {
    alive, printed := [], [];
    var i := 0;
    while i < |results|
      invariant 0 <= i <= |results| && alive == AliveList(results[..i])
      invariant |printed| == |DeadList(results[..i])|
      invariant forall k :: 0 <= k < |printed| ==> printed[k] == FailedLine(DeadList(results[..i])[k])
    {
      assert results[..i + 1][..i] == results[..i];
      var result := results[i];
      if !result.alive {
        printed := printed + [FailedLine(result.proxy)];
      } else {
        alive := alive + [result.proxy];
      }
      i := i + 1;
    }
    assert results[..i] == results;
  }

  /** The collector splits the results: every proxy goes to exactly one of
      the two lists. */
  lemma {:induction false} CollectPartition(results: seq<Result>)
    ensures multiset(AliveList(results)) + multiset(DeadList(results)) == multiset(Proxies(results))
    ensures |AliveList(results)| + |DeadList(results)| == |results|
    decreases |results|
  {
    if results != [] {
      var init := results[..|results| - 1];
      CollectPartition(init);
    }
  }

  /** A proxy is in alive exactly when a live result for it came in, and among
      the failed lines exactly when a dead one did. */
  lemma {:induction false} CollectMembers(results: seq<Result>)
    ensures forall p :: p in AliveList(results) <==> Result(true, p) in results
    ensures forall p :: p in DeadList(results) <==> Result(false, p) in results
    decreases |results|
  {
    if results != [] {
      var init := results[..|results| - 1];
      CollectMembers(init);
      assert results == init + [results[|results| - 1]];
    }
  }

  /** The indices 0 .. n - 1 in decimal. */
  function Indices(n: nat): (lines: seq<string>)
    ensures |lines| == n
  {
    if n == 0 then [] else Indices(n - 1) + [Itoa(n - 1)]
  }

  lemma {:induction false} IndicesAt(n: nat, k: nat)
    requires k < n
    ensures Indices(n)[k] == Itoa(k)
    decreases n
  {
    if k < n - 1 {
      IndicesAt(n - 1, k);
    } else if n > 1 {
      IndicesAt(n - 1, 0);
    }
  }

  /** The last loop as written: `range` over the slice with one variable binds
      the index, so what is printed is 0, 1, ..., not the live proxies. */
  method PrintIndices(alive: seq<string>) returns (out: seq<string>)
    ensures out == Indices(|alive|)
  {
    out := [];
    var i := 0;
    while i < |alive|
      invariant 0 <= i <= |alive| && out == Indices(i)
    {
      out := out + [Itoa(i)];
      i := i + 1;
    }
  }

  /** A printed index is never a proxy line: it has no dot, so no live proxy is
      ever printed. */
  lemma IndexIsNoAddress(i: nat)
    ensures !Accepts(Itoa(i))
  {
    var s := Itoa(i);
    DigitsHaveNoSeparator(s);
    BeforeAll(s, '.');
  }

  /** With at least one live proxy, the last loop prints something other than
      the live list, and none of its lines is one of them. */
  lemma PrintedIndicesAreWrong(alive: seq<string>)
    requires alive != [] && forall k :: 0 <= k < |alive| ==> Accepts(alive[k])
    ensures Indices(|alive|) != alive
    ensures forall k :: 0 <= k < |alive| ==> Indices(|alive|)[k] !in alive
  {
    IndexIsNoAddress(0);
    IndicesAt(|alive|, 0);
    assert Indices(|alive|)[0] != alive[0];
    forall k | 0 <= k < |alive| ensures Indices(|alive|)[k] !in alive {
      IndicesAt(|alive|, k);
      IndexIsNoAddress(k);
    }
  }

  /** The last loop as intended, `for _, proxy := range alive`: the live
      proxies one per line, in collection order. */
  method PrintAlive(alive: seq<string>) returns (out: seq<string>)
    ensures out == alive
  {
    out := [];
    var i := 0;
    while i < |alive|
      invariant 0 <= i <= |alive| && out == alive[..i]
    {
      assert alive[..i + 1] == alive[..i] + [alive[i]];
      out := out + [alive[i]];
      i := i + 1;
    }
    assert alive[..i] == alive;
  }

  /** main from the scanned lines on, with the last loop as intended: the
      failed lines as the results come in, then the live proxies. */
  method Run(c: LegacyChecker.Checker, lines: seq<string>, gets: seq<Errors.Outcome>, bodies: seq<string>, order: seq<nat>)
    returns (out: seq<string>)
    requires |gets| == |Queued(lines)| && |bodies| == |Queued(lines)|
    requires Pool.IsFullSchedule(order, |Queued(lines)|)
    modifies c
    ensures Pool.InRange(order, |Queued(lines)|)
    ensures var results := Delivered(Queued(lines), gets, bodies, order);
      && |out| == |DeadList(results)| + |AliveList(results)|
      && (forall k :: 0 <= k < |DeadList(results)| ==> out[k] == FailedLine(DeadList(results)[k]))
      && out[|DeadList(results)|..] == AliveList(results)
  {
    var jobs := Queue(lines);
    QueuedMembers(lines);
    forall k | 0 <= k < |jobs| ensures ':' in jobs[k] {
      assert jobs[k] in jobs;
      AcceptedHasColon(jobs[k]);
    }
    var results := Work(c, jobs, gets, bodies, order);
    var alive, printed := Collect(results);
    var tail := PrintAlive(alive);
    out := printed + tail;
  }

  /** Each queued line is reported once, as failed or as alive. */
  lemma EveryLineReported(lines: seq<string>, gets: seq<Errors.Outcome>, bodies: seq<string>, order: seq<nat>)
    requires |gets| == |Queued(lines)| && |bodies| == |Queued(lines)|
    requires Pool.IsFullSchedule(order, |Queued(lines)|)
    ensures Pool.InRange(order, |Queued(lines)|)
    ensures var results := Delivered(Queued(lines), gets, bodies, order);
      multiset(AliveList(results)) + multiset(DeadList(results)) == multiset(Queued(lines))
  {
    EveryJobReported(Queued(lines), gets, bodies, order);
    CollectPartition(Delivered(Queued(lines), gets, bodies, order));
  }
}
