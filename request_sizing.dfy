/** internal/http-server/middleware/request_sizing.go: requests that declare a
    body larger than 5 MiB are refused with 413; the others get their body
    wrapped by http.MaxBytesReader so that reading past the limit fails, and
    are passed on. */
module RequestSizing {
  import opened Errors
  import Http

  const MaxUploadSize: int := 5 * 1024 * 1024

  /** A request body: the bytes the client sends, possibly behind a
      MaxBytesReader with the given limit. */
  datatype Body = Raw(data: string) | Capped(inner: Body, limit: int)

  /** What io.ReadAll gets from a body. A MaxBytesReader hands out at most its
      limit and then fails. */
  function ReadAll(b: Body): (r: (string, Outcome))
  {
    match b
    case Raw(data) => (data, Pass)
    case Capped(inner, limit) =>
      var (data, err) := ReadAll(inner);
      if limit >= 0 && |data| > limit then (data[..limit], Fail(Plain("http: request body too large")))
      else (data, err)
  }

  /** A request as the middleware sees it; Body is the field it replaces.
      ContentLength is -1 when the length is unknown. */
  class Request {
    var contentLength: int
    var body: Body

    constructor(contentLength: int, body: Body)
      ensures this.contentLength == contentLength && this.body == body
    {
      this.contentLength := contentLength;
      this.body := body;
    }
  }

  /** Whether a declared length passes: unknown (-1) and exactly 5 MiB do. */
  predicate Admits(contentLength: int) {
    contentLength <= MaxUploadSize
  }

  /** The middleware's handler. */
  method Handle(r: Request) returns (reply: Http.Reply)
    modifies r
    ensures r.contentLength == old(r.contentLength)
    ensures !Admits(r.contentLength) ==>
      reply == Http.Respond(Http.Error("request too large", Http.StatusRequestEntityTooLarge))
      && r.body == old(r.body)
    ensures Admits(r.contentLength) ==> reply == Http.Next && r.body == Capped(old(r.body), MaxUploadSize)
  {
    if r.contentLength > MaxUploadSize {
      return Http.Respond(Http.Error("request too large", Http.StatusRequestEntityTooLarge));
    }
    r.body := Capped(r.body, MaxUploadSize);
    reply := Http.Next;
  }

  /** The middleware's test cases: 1 KiB and exactly 5 MiB pass, one byte more
      does not, and neither does a body of unknown length get refused up front. */
  lemma AdmitsCases()
    ensures MaxUploadSize == 5242880
    ensures Admits(1024) && Admits(5 * 1024 * 1024) && !Admits(5 * 1024 * 1024 + 1) && Admits(-1)
  {
  }

  /** Behind the middleware's reader, a handler reads at most MaxUploadSize
      bytes; a body within the limit reads as it was sent, and a longer one reads
      as its first MaxUploadSize bytes and an error. */
  lemma {:induction false} CappedRead(b: Body)
    ensures |ReadAll(Capped(b, MaxUploadSize)).0| <= MaxUploadSize
    ensures ReadAll(Capped(b, MaxUploadSize)).0 <= ReadAll(b).0
    ensures |ReadAll(b).0| <= MaxUploadSize ==> ReadAll(Capped(b, MaxUploadSize)) == ReadAll(b)
    ensures |ReadAll(b).0| > MaxUploadSize ==>
      ReadAll(Capped(b, MaxUploadSize)).1 == Fail(Plain("http: request body too large"))
  {
  }
}
