/** The worker pools of internal/proxy/checker.go (Check) and
    internal/http-server/handler/check.go (runChecking), seen sequentially.
    Each line gets one verdict; the pool's workers finish the lines in some
    order, and only the successes reach the output stream, in that order. The
    order is an input: a sequence of distinct line indices, all of them when
    the run was not cancelled, and fewer when cancellation stopped the workers
    from taking more lines. */
module Pool {
  import opened Errors

  /** The (address, error) pair that one per-line check returns. */
  datatype Verdict = Verdict(proxy: string, err: Outcome)

  /** 0, 1, ..., n - 1: the lines in input order. */
  function Range(n: nat): (r: seq<nat>)
    ensures |r| == n && forall k :: 0 <= k < n ==> r[k] == k
  {
    if n == 0 then [] else Range(n - 1) + [n - 1]
  }

  /** A completion order of some of the n lines: each line at most once. */
  ghost predicate IsSchedule(order: seq<nat>, n: nat) {
    multiset(order) <= multiset(Range(n))
  }

  /** A completion order of all n lines: each line exactly once. */
  ghost predicate IsFullSchedule(order: seq<nat>, n: nat) {
    multiset(order) == multiset(Range(n))
  }

  ghost predicate InRange(order: seq<nat>, n: nat) {
    forall k :: 0 <= k < |order| ==> order[k] < n
  }

  /** What the line with index k adds to the output stream. */
  function Emitted(verdicts: seq<Verdict>, k: nat): seq<string>
    requires k < |verdicts|
  {
    if verdicts[k].err.Pass? then [verdicts[k].proxy] else []
  }

  /** The output stream when the lines complete in the given order. */
  function Forwarded(verdicts: seq<Verdict>, order: seq<nat>): seq<string>
    requires InRange(order, |verdicts|)
  {
    if order == [] then []
    else Forwarded(verdicts, order[..|order| - 1]) + Emitted(verdicts, order[|order| - 1])
  }

  /** The successful addresses in input order. */
  function Successes(verdicts: seq<Verdict>): seq<string> {
    if verdicts == [] then [] else Successes(verdicts[..|verdicts| - 1]) + Emitted(verdicts, |verdicts| - 1)
  }

  lemma ScheduleInRange(order: seq<nat>, n: nat)
    requires IsSchedule(order, n)
    ensures InRange(order, n)
  {
    forall k | 0 <= k < |order| ensures order[k] < n {
      assert order[k] in multiset(order);
      assert order[k] in multiset(Range(n));
      var m :| 0 <= m < n && Range(n)[m] == order[k];
    }
  }

  /** A schedule takes each line at most once, so it is no longer than the input. */
  lemma ScheduleLength(order: seq<nat>, n: nat)
    requires IsSchedule(order, n)
    ensures |order| <= n
  {
    var all := multiset(Range(n));
    var rest := all - multiset(order);
    assert all == multiset(order) + rest;
    assert |all| == |multiset(order)| + |rest|;
  }

  lemma {:induction false} ForwardedConcat(verdicts: seq<Verdict>, a: seq<nat>, b: seq<nat>)
    requires InRange(a, |verdicts|) && InRange(b, |verdicts|)
    ensures InRange(a + b, |verdicts|)
    ensures Forwarded(verdicts, a + b) == Forwarded(verdicts, a) + Forwarded(verdicts, b)
    decreases |b|
  {
    if b != [] {
      var b' := b[..|b| - 1];
      assert (a + b)[..|a + b| - 1] == a + b';
      ForwardedConcat(verdicts, a, b');
    } else {
      assert a + b == a;
    }
  }

  /** Every address on the output stream is the address of a line whose check
      succeeded, and that line was among those the workers took. */
  lemma {:induction false} ForwardedSound(verdicts: seq<Verdict>, order: seq<nat>, p: string)
    requires InRange(order, |verdicts|)
    requires p in Forwarded(verdicts, order)
    ensures exists k :: 0 <= k < |order| && verdicts[order[k]].err.Pass? && verdicts[order[k]].proxy == p
    decreases |order|
  {
    var last := order[|order| - 1];
    if p in Forwarded(verdicts, order[..|order| - 1]) {
      ForwardedSound(verdicts, order[..|order| - 1], p);
      var k :| 0 <= k < |order| - 1 && verdicts[order[..|order| - 1][k]].err.Pass?
        && verdicts[order[..|order| - 1][k]].proxy == p;
      assert order[..|order| - 1][k] == order[k];
    } else {
      assert p in Emitted(verdicts, last);
      assert verdicts[order[|order| - 1]].err.Pass?;
    }
  }

  /** At most one address per line the workers took. */
  lemma {:induction false} ForwardedLength(verdicts: seq<Verdict>, order: seq<nat>)
    requires InRange(order, |verdicts|)
    ensures |Forwarded(verdicts, order)| <= |order|
    decreases |order|
  {
    if order != [] {
      ForwardedLength(verdicts, order[..|order| - 1]);
    }
  }

  /** Taking lines in an order that uses each line no more often than another
      order does yields a sub-multiset of that order's output. */
  lemma {:induction false} ForwardedMonotone(verdicts: seq<Verdict>, a: seq<nat>, b: seq<nat>)
    requires InRange(a, |verdicts|) && InRange(b, |verdicts|)
    requires multiset(a) <= multiset(b)
    ensures multiset(Forwarded(verdicts, a)) <= multiset(Forwarded(verdicts, b))
    decreases |a|
  {
    if a != [] {
      var x, a' := a[|a| - 1], a[..|a| - 1];
      assert a == a' + [x] + [];
      InRangeParts(a', [], x, |verdicts|);
      assert x in multiset(a);
      var p :| 0 <= p < |b| && b[p] == x;
      var b' := b[..p] + b[p + 1..];
      RemoveAt(verdicts, b, p);
      MultisetCancel(multiset(a'), multiset(b'), x);
      ForwardedMonotone(verdicts, a', b');
      ForwardedConcat(verdicts, a', [x]);
      assert Forwarded(verdicts, [x]) == Emitted(verdicts, x);
      var fa := Forwarded(verdicts, a');
      assert multiset(fa + Emitted(verdicts, x)) == multiset(fa) + multiset(Emitted(verdicts, x));
    }
  }

  lemma MultisetCancel<T>(a: multiset<T>, b: multiset<T>, x: T)
    requires a + multiset{x} <= b + multiset{x}
    ensures a <= b
  {
    forall y ensures a[y] <= b[y] {
      assert (a + multiset{x})[y] <= (b + multiset{x})[y];
    }
  }

  /** Taking one line out of an order takes its output out of the order's
      output. */
  lemma RemoveAt(verdicts: seq<Verdict>, b: seq<nat>, p: nat)
    requires InRange(b, |verdicts|) && p < |b|
    ensures InRange(b[..p] + b[p + 1..], |verdicts|)
    ensures multiset(b) == multiset(b[..p] + b[p + 1..]) + multiset{b[p]}
    ensures multiset(Forwarded(verdicts, b))
      == multiset(Forwarded(verdicts, b[..p] + b[p + 1..])) + multiset(Emitted(verdicts, b[p]))
  {
    var x, l, r := b[p], b[..p], b[p + 1..];
    SplitAt(b, p);
    InRangeParts(l, r, x, |verdicts|);
    ForwardedConcat(verdicts, l + [x], r);
    ForwardedConcat(verdicts, l, [x]);
    ForwardedConcat(verdicts, l, r);
    assert Forwarded(verdicts, [x]) == Emitted(verdicts, x);
    var fl, fr := Forwarded(verdicts, l), Forwarded(verdicts, r);
    assert multiset(fl + Emitted(verdicts, x) + fr) == multiset(fl) + multiset(Emitted(verdicts, x)) + multiset(fr);
    assert multiset(fl + fr) == multiset(fl) + multiset(fr);
  }

  lemma SplitAt<T>(b: seq<T>, p: nat)
    requires p < |b|
    ensures b == b[..p] + [b[p]] + b[p + 1..]
    ensures multiset(b) == multiset(b[..p] + b[p + 1..]) + multiset{b[p]}
  {
    assert b == b[..p] + [b[p]] + b[p + 1..];
  }

  lemma InRangeParts(l: seq<nat>, r: seq<nat>, x: nat, n: nat)
    requires InRange(l + [x] + r, n)
    ensures InRange(l, n) && InRange(r, n) && InRange([x], n) && InRange(l + [x], n) && InRange(l + r, n)
  {
    assert forall k | 0 <= k < |l| :: l[k] == (l + [x] + r)[k];
    assert forall k | 0 <= k < |r| :: r[k] == (l + [x] + r)[|l| + 1 + k];
    assert (l + [x] + r)[|l|] == x;
  }

  lemma {:induction false} ForwardedInInputOrder(verdicts: seq<Verdict>, n: nat)
    requires n <= |verdicts|
    ensures InRange(Range(n), |verdicts|)
    ensures Forwarded(verdicts, Range(n)) == Successes(verdicts[..n])
    decreases n
  {
    if n > 0 {
      ForwardedInInputOrder(verdicts, n - 1);
      var r, v := Range(n), verdicts[..n];
      assert r[..n - 1] == Range(n - 1) && r[n - 1] == n - 1;
      assert v[..n - 1] == verdicts[..n - 1];
      assert Forwarded(verdicts, r) == Forwarded(verdicts, Range(n - 1)) + Emitted(verdicts, n - 1);
      assert Successes(v) == Successes(verdicts[..n - 1]) + Emitted(v, n - 1);
      assert Emitted(v, n - 1) == Emitted(verdicts, n - 1);
    }
  }

  /** A cancelled run outputs a sub-multiset of the successes, and a run in which
      the workers took every line outputs exactly the successes, in some order. */
  lemma ForwardedIsSuccesses(verdicts: seq<Verdict>, order: seq<nat>)
    requires IsSchedule(order, |verdicts|)
    ensures InRange(order, |verdicts|)
    ensures multiset(Forwarded(verdicts, order)) <= multiset(Successes(verdicts))
    ensures IsFullSchedule(order, |verdicts|) ==>
      multiset(Forwarded(verdicts, order)) == multiset(Successes(verdicts))
  {
    ScheduleInRange(order, |verdicts|);
    var all := Range(|verdicts|);
    ForwardedInInputOrder(verdicts, |verdicts|);
    assert verdicts[..|verdicts|] == verdicts;
    ForwardedMonotone(verdicts, order, all);
    if IsFullSchedule(order, |verdicts|) {
      ForwardedMonotone(verdicts, all, order);
    }
  }
}
