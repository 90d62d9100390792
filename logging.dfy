/** The responseWriter of internal/http-server/middleware/logging.go: it wraps
    the real http.ResponseWriter, forwards the first WriteHeader only, sends an
    implicit 200 before a body written without a header, and counts the bytes
    the real writer reports as written. The calls it makes on the real writer are
    kept in `forwarded`; what the real writer's Write returns is an input. */
module Logging {
  import opened Errors
  import Http

  /** The sum of the byte counts. */
  function Total(counts: seq<int>): int {
    if counts == [] then 0 else Total(counts[..|counts| - 1]) + counts[|counts| - 1]
  }

  class ResponseWriter {
    var status: int
    var wroteHeader: bool
    var written: int
    /** The calls made on the wrapped writer, in order. */
    var forwarded: seq<Http.Action>
    /** The n of every Write of the wrapped writer, in order. */
    ghost var counts: seq<int>

    /** A header has gone out exactly when something was forwarded; it was the
        first call, it carried `status`, and everything after it is body. */
    ghost predicate Valid()
      reads this
    {
      && (wroteHeader <==> forwarded != [])
      && (forwarded != [] ==> forwarded[0] == Http.WriteHeader(status))
      && (forall k :: 1 <= k < |forwarded| ==> forwarded[k].WriteBody?)
      && (!wroteHeader ==> status == 0)
      && written == Total(counts)
    }

    /** wrapResponseWriter */
    constructor()
      ensures Valid()
      ensures status == 0 && !wroteHeader && written == 0
      ensures forwarded == [] && counts == []
    {
      status := 0;
      wroteHeader := false;
      written := 0;
      forwarded := [];
      counts := [];
    }

    /** The code the response went out with, or 0 while none has. */
    method Status() returns (s: int)
      requires Valid()
      ensures s == (if forwarded == [] then 0 else Http.StatusOf(forwarded))
    {
      s := status;
    }

    /** The number of bytes the wrapped writer accepted. */
    method BytesWritten() returns (n: int)
      requires Valid()
      ensures n == Total(counts)
    {
      n := written;
    }

    /** Only the first call records and forwards its code. */
    method WriteHeader(code: int)
      requires Valid()
      modifies this
      ensures Valid()
      ensures old(wroteHeader) ==> forwarded == old(forwarded) && status == old(status)
      ensures !old(wroteHeader) ==> forwarded == [Http.WriteHeader(code)] && status == code
      ensures wroteHeader && written == old(written) && counts == old(counts)
    {
      if wroteHeader {
        return;
      }
      status := code;
      forwarded := forwarded + [Http.WriteHeader(code)];
      wroteHeader := true;
    }

    /** Write p, where the wrapped writer reports (n, err). n counts bytes of
        p's UTF-8 encoding, which the model does not compute, so it is bounded
        only from below. A header of 200 goes first when none went before. */
    method Write(p: string, n: int, err: Outcome) returns (count: int, e: Outcome)
      requires Valid()
      requires 0 <= n
      modifies this
      ensures Valid()
      ensures count == n && e == err
      ensures forwarded == old(forwarded) + (if old(wroteHeader) then [] else [Http.WriteHeader(Http.StatusOK)]) + [Http.WriteBody(p)]
      ensures status == (if old(wroteHeader) then old(status) else Http.StatusOK)
      ensures counts == old(counts) + [n] && written == old(written) + n
    {
      if !wroteHeader {
        WriteHeader(Http.StatusOK);
      }
      forwarded := forwarded + [Http.WriteBody(p)];
      counts := counts + [n];
      written := written + n;
      count, e := n, err;
    }
  }

  /** A byte count is never negative. */
  lemma {:induction false} TotalNonNegative(counts: seq<int>)
    requires forall k :: 0 <= k < |counts| ==> counts[k] >= 0
    ensures Total(counts) >= 0
    decreases |counts|
  {
    if counts != [] {
      TotalNonNegative(counts[..|counts| - 1]);
    }
  }
}
