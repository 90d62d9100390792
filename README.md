# proxy-checker in Dafny

proxy-checker takes lines of text that should hold proxy addresses and reports which proxies really forward traffic.

- **Extracting and checking.** The current engine (internal/proxy) extracts an `IPv4:port` address from each line with a fixed regular expression. It probes the address twice, once through an HTTP proxy and once through a SOCKS5 proxy, and fetches a target that echoes the caller's IP. It keeps the address when either probe gets a 200 whose body contains the proxy's host.
- **Workers.** A pool of workers runs these checks. A collector gathers the successes.
- **Front ends.**
  - The engine has three front ends: a command-line reader (file or standard input), an HTTP API with an HTML form, and a bot. A sub-command dispatcher (main.go) picks one.
  - The HTTP server wraps its handlers in three middlewares: a per-client rate limiter, a request-size limit and a status-recording logger.
  - Logging goes through a coloured slog handler.
- **The legacy tool.** The older stand-alone program in cmd/main.go and pkg/checker does something similar. It validates each line against a stricter, anchored pattern. Ten workers then share one HTTP client, and a proxy counts as alive only when the body is exactly its host.

The model covers the decision logic of all of these. Concurrency and I/O are replaced by inputs:

- **Network round trips.** The result of each one is an input: errors, status and body.
- **Probe order.** The order in which the two probes of one address arrive is an input.
- **Worker order.** The order in which workers finish lines is an input `order`, a sequence of distinct line indices. It covers every line unless the run was cancelled. Streams become sequences.
- **Select branch.** The branch of a `select` is an input (`ProxyChecker.Stop`).
- **Cancellation.** The point at which a context is found done is an input (`cancel`).
- **Clock.** Time is an integer count of nanoseconds, passed in.
- **Response writer.** What a handler does to its `http.ResponseWriter` is a sequence of `Http.Action`s. `Http.StatusOf`, `Http.HeaderOf`, `Http.BodyOf` and `Http.JsonOf` read off what the client receives.
- **Errors.** Go errors are `Errors.GoError` values. `Message()` gives `err.Error()`, and `Wrapped` stands for `fmt.Errorf("…%w", cause)`.

Modules, one per source file, plus four shared modules:

- `Text`: Go string functions and decimal formatting.
- `Errors`: Go error values.
- `Http`: writer actions and what the client receives.
- `Pool`: the worker-pool specification shared by `Check` and `runChecking`.
- `Address`: the extraction pattern of internal/proxy/checker.go:20.
- `ProxyChecker`: internal/proxy/checker.go.
- `CheckHandler`: internal/http-server/handler/check.go.
- `Handler`: internal/http-server/handler/handler.go.
- `RateLimiting`, `Logging` and `RequestSizing`: the three middlewares.
- `Reader`: internal/proxy/reader.go.
- `PrettyHandler`: internal/logger/pretty_handler.go.
- `Root`: main.go.
- `LegacyCli`: cmd/main.go.
- `LegacyChecker`: pkg/checker/checker.go.

## Model

| member | source | states |
|---|---|---|
| Address.MatchAtExact | internal/proxy/checker.go:20 | The computable scanner `MatchAt` reports end j for start i exactly when the pattern `\b\d{1,3}\.\d{1,3}\.\d{1,3}\.\d{1,3}:\d{1,5}\b`, read token by token with `\b` judged on the whole string, matches `s[i..j]`. |
| Address.ScanExact | internal/proxy/checker.go:20 | For every well-formed token sequence, taking each digit run greedily loses no match: the scan ends at j exactly when the tokens match `s[i..j]`. |
| Address.MatchUnique | internal/proxy/checker.go:20 | From one start the pattern matches at most one length. |
| Address.FindFromScans | internal/proxy/checker.go:103 | The leftmost search reports the first start from `from` at which the scanner succeeds, with its end. When it reports nothing, the scanner succeeds nowhere. |
| Address.FindStringSpec | internal/proxy/checker.go:103 | `FindString` is "" exactly when no substring matches. Otherwise it is a substring matching the pattern, and no match starts further left. |
| Address.MatchBoundaries | internal/proxy/checker.go:20 | A match starts on a digit that follows no word character and ends on a digit that no word character follows. It never starts or ends inside a longer run of word characters, and it is at least nine characters long. |
| Address.ScanLength | internal/proxy/checker.go:20 | A successful scan is at least as long as the fewest characters the remaining tokens can match. |
| Address.ScanEnd | internal/proxy/checker.go:20 | A pattern ending in a digit group and `\b` ends its match on a digit, followed by the end of the string or a non-word character. |
| Address.PatternWellFormed | internal/proxy/checker.go:20 | Every digit group of the pattern has at least one digit and is followed by `\b` or by a non-digit literal, the condition for greedy scanning being exact. |
| Address.NoMatchInsideRun | internal/proxy/checker.go:20 | After a digit group, the rest of the pattern cannot match from inside the digit run, so the greedy choice is the only one. |
| Address.DigitRun | internal/proxy/checker.go:20 | The length of the digit run at i: every character inside it is a digit, and the one after it is not. |
| Address.Scan | internal/proxy/checker.go:20 | A successful scan ends within the string, at or after its start. |
| Address.MatchAt | internal/proxy/checker.go:20 | The end of the match from i, if any, lies between i and the end of the string. |
| Address.FindFrom | internal/proxy/checker.go:103 | The reported match lies within the string, at or after `from`. |
| Address.AcceptsUncheckedOctets | internal/proxy/checker.go:20 | Octet values are not range-checked: `FindString("999.999.999.999:99999")` is the whole line. |
| Address.NoMatchAfterLetter | internal/proxy/checker.go:20 | In "a1.2.3.4:5" nothing matches from the digit after the letter, at any length. |
| Address.NoMatchInLongGroup | internal/proxy/checker.go:20 | "1234.1.1.1:80" has no match from position 0: a four-digit group is not shortened to three. |
| Address.NoMatchWithLongPort | internal/proxy/checker.go:20 | "1.1.1.1:123456" has no match from position 0: a six-digit port is not shortened to five. |
| ProxyChecker.Host | internal/proxy/checker.go:162 | `strings.Split(proxy, ":")[0]` is the prefix of proxy before its first ':' and holds no ':'. |
| ProxyChecker.DoRequest | internal/proxy/checker.go:127-167 | A probe succeeds iff there is no request error, no transport error, status exactly 200, no read error, and a body containing the text before the first ':'. |
| ProxyChecker.DoRequestMessage | internal/proxy/checker.go:141-164 | The checks run in source order, and the first that fails gives the error: the request error itself, then "request failed: "+cause, "non-200 response: "+code, "reading response body: "+cause, and "proxy IP mismatch: "+proxy. |
| ProxyChecker.Arrivals | internal/proxy/checker.go:107-115 | The two probe results, in either arrival order, are exactly the http and the socks5 outcomes. |
| ProxyChecker.Expected | internal/proxy/checker.go:101-125 | The verdict's address is the extracted substring. It passes iff that is non-empty and one of the two probes passed. |
| ProxyChecker.CheckOne | internal/proxy/checker.go:101-125 | A line with no match returns ("", "invalid proxy url: "+line) before probing. Otherwise it returns the extracted address, never the raw line, with success iff a probe succeeded, and on double failure the error that arrived second. |
| ProxyChecker.Verdicts | internal/proxy/checker.go:101-125 | Line by line, the verdict's address is the one extracted from the line, and it passes iff that address is non-empty and one of the line's two probes succeeded. CheckOne returns that verdict. |
| ProxyChecker.Check | internal/proxy/checker.go:61-99 | The result stream is exactly what `Pool.Forwarded` gives for the verdicts in completion order: the addresses of the successful CheckOne calls, failures dropped. The error stream carries a single nil. |
| ProxyChecker.CheckForwardsSuccesses | internal/proxy/checker.go:61-99 | As a multiset, Check's output is part of the successful verdicts, and all of them when every line was taken. |
| ProxyChecker.CheckForwardsConfirmed | internal/proxy/checker.go:78-81 | Every forwarded address is non-empty and was extracted from a line a worker took, and one of that line's probes confirmed it. |
| ProxyChecker.Collected | internal/proxy/checker.go:39-59 | AwaitCheck's results are always a prefix of the result stream, and its error is nil or ctx.Err(). A drained stream gives all of it with nil. |
| ProxyChecker.AwaitCheck | internal/proxy/checker.go:39-59 | The collector loop returns the stream up to where the select stopped: all of it on close, the prefix with ctx.Err() on cancellation, and the prefix with nil when it took the error stream. |
| ProxyChecker.AwaitCheckDropsBufferedResult | internal/proxy/checker.go:45-57 | One worker with one live address: a reachable select stops on the error stream with the address still buffered and returns nothing with nil. |
| ProxyChecker.CollectedAll | internal/proxy/checker.go:39-59 | The intended collector: everything on the stream, unless cancellation cuts it to a prefix with ctx.Err(). |
| ProxyChecker.AwaitCheckDrained | internal/proxy/checker.go:39-59 | The draining collector loop computes `CollectedAll`. |
| ProxyChecker.AwaitAllAfterCheck | internal/proxy/checker.go:39-99 | With the draining collector, an uncancelled run returns exactly the successful addresses, each as often as it passed. |
| Pool.Range | internal/http-server/handler/check.go:108 | The indices 0..n-1 in order. |
| Pool.ScheduleInRange | internal/proxy/checker.go:66-88 | A schedule that takes each line at most once names only existing lines. |
| Pool.ScheduleLength | internal/http-server/handler/check.go:108-130 | A schedule is no longer than the input. |
| Pool.ForwardedConcat | internal/proxy/checker.go:78-81 | The output of two runs of completions one after the other is the two outputs concatenated. |
| Pool.ForwardedSound | internal/proxy/checker.go:78-81 | Every output address is the address of a successful verdict of a line that was taken. |
| Pool.ForwardedLength | internal/http-server/handler/check.go:120-124 | At most one output address per line taken. |
| Pool.ForwardedMonotone | internal/proxy/checker.go:66-88 | An order that uses no line more often than another yields a sub-multiset of the other's output. |
| Pool.RemoveAt | internal/proxy/checker.go:78-81 | Removing one completion removes exactly its contribution from the output multiset. |
| Pool.ForwardedInInputOrder | internal/proxy/checker.go:78-81 | Completing the lines in input order outputs the successes in input order. |
| Pool.ForwardedIsSuccesses | internal/proxy/checker.go:61-99 | A cancelled run outputs a sub-multiset of the successful addresses. A run that took every line outputs exactly them, in some order. |
| CheckHandler.Valid | internal/http-server/handler/check.go:14-30 | The problems map is empty iff there are 1 to 100 lines. Otherwise its only key is "data", with "request cannot be empty" or "request cannot contain more than 100 lines". |
| CheckHandler.ValidTooLongMessage | internal/http-server/handler/check.go:25-26 | The limit is written "100" in the message. |
| CheckHandler.RunChecking | internal/http-server/handler/check.go:103-138 | The output holds exactly the successful checks in completion order, at most one per line. |
| CheckHandler.Collect | internal/http-server/handler/check.go:53-56 | Ranging over the result stream collects it whole, in order. |
| CheckHandler.ProxyCheckApi | internal/http-server/handler/check.go:32-60 | A decode error, or a request Valid objects to, gets a 400 JSON errorResponse and checks no line. Otherwise it checks exactly the request's lines and replies 200 with the JSON array of the successes. |
| CheckHandler.ProxyCheckWeb | internal/http-server/handler/check.go:70-101 | A form error gets 400 "Error parsing form: …" and an empty field 400 "Proxies parameter is missing", with nothing checked. Otherwise it checks the field split on "\n", with no trimming and no cap, and renders the successes. When the template fails, renderFail's page follows whatever the template wrote, so the client sees 500 only if nothing was written and otherwise the partial page with 200. |
| CheckHandler.TemplateFailed | internal/http-server/handler/check.go:97-99 | After a failed template execution the status on the wire is 200 when the template had written part of the page and 500 when it had written nothing; the body ends with the error text and a newline either way. |
| Handler.Errs | internal/http-server/handler/handler.go:84-87 | Same keys, each error carrying the string as its message. |
| Handler.MarshalJSON | internal/http-server/handler/handler.go:82-95 | The problems map is always present, with the key set of the (nil-as-empty) errors map, each value `err.Error()`. The message is kept and the error is nil. |
| Handler.UnmarshalJSON | internal/http-server/handler/handler.go:63-80 | Undecodable text leaves the receiver unchanged and returns the error. Otherwise Problems becomes a non-nil map with the decoded keys, each error's message the decoded string. |
| Handler.MarshalUnmarshal | internal/http-server/handler/handler.go:63-95 | Marshal then unmarshal keeps the message and every key's error message, and a nil map comes back empty and non-nil. |
| Handler.UnmarshalMarshal | internal/http-server/handler/handler.go:63-95 | Unmarshal then marshal of a document with a problems object gives the same document. |
| Handler.WireOfWireJson | internal/http-server/handler/handler.go:63-95 | Reading back the JSON document of the wire struct gives the struct. |
| Handler.ResponseFailRoundTrip | internal/http-server/handler/handler.go:46-50 | Decoding the body of a responseFail reply gives back the message and, key by key, the problems' messages. |
| Handler.EncodeActions | internal/http-server/handler/handler.go:17-24 | The client sees Content-Type "application/json", the given status, and exactly the one encoded document. |
| Handler.Encode | internal/http-server/handler/handler.go:17-24 | The error is nil iff the encoder's is, and otherwise reads "encode json: "+cause. |
| Handler.Decode | internal/http-server/handler/handler.go:26-32 | The decoded value passes through. A failure is wrapped with "decode json: ". |
| Handler.ResponseFail | internal/http-server/handler/handler.go:46-50 | The given status, JSON content type, and the errorResponse document as the body. |
| Handler.ResponseSuccess | internal/http-server/handler/handler.go:52-56 | Status 200, JSON content type, and the lines as a JSON array. |
| Handler.RenderFail | internal/http-server/handler/handler.go:34-36 | The given status and the message plus a newline as the body. |
| Handler.Render | internal/http-server/handler/handler.go:38-44 | Content-Type "text/html". The error is nil iff execution succeeded, and otherwise reads "render HTML: "+cause. |
| Http.Error | internal/http-server/handler/handler.go:35 | http.Error: the client gets the code, a text/plain utf-8 content type, nosniff, and msg plus "\n" as the body. |
| RateLimiting.TooMany | internal/http-server/middleware/rate_limiting.go:52 | A rejection is 429 with body "too many request\n". |
| RateLimiting.Admit | internal/http-server/middleware/rate_limiting.go:44-56 | The entry is created if missing and its lastSeen set to now, refused or not. No other entry changes. The request is passed on iff the host is new or a second has passed since its last grant. A grant records now, and a refusal gives 429 and keeps the bucket. |
| RateLimiting.Swept | internal/http-server/middleware/rate_limiting.go:25-31 | The sweep keeps exactly the entries quiet for at most three minutes (strictly more is stale), unchanged. |
| RateLimiting.Limiter.constructor | internal/http-server/middleware/rate_limiting.go:17-20 | The client map starts empty. |
| RateLimiting.Limiter.Handle | internal/http-server/middleware/rate_limiting.go:37-57 | A RemoteAddr without a host gets a bare 500 and the map is untouched. Otherwise the reply and the new map are `Admit`'s. |
| RateLimiting.Limiter.Sweep | internal/http-server/middleware/rate_limiting.go:21-33 | One pass of the sweep loop leaves exactly `Swept` of the old map. |
| RateLimiting.AdmitSequence | internal/http-server/middleware/rate_limiting.go:46-54 | A new host is admitted, refused with 429 within the same second, and admitted again a second after the grant. |
| RateLimiting.RefusalsKeepGrant | internal/http-server/middleware/rate_limiting.go:50-54 | Any number of refused requests keep the last grant, so the host is admitted from one second after it. |
| RateLimiting.EvictedIsAdmitted | internal/http-server/middleware/rate_limiting.go:27-48 | A host the sweep forgot is new again and is admitted. |
| Logging.ResponseWriter.constructor | internal/http-server/middleware/logging.go:48-50 | A fresh wrapper has status 0, no header, 0 bytes written and nothing forwarded. |
| Logging.ResponseWriter.Status | internal/http-server/middleware/logging.go:52-54 | The code the response went out with, or 0 while nothing was sent. |
| Logging.ResponseWriter.BytesWritten | internal/http-server/middleware/logging.go:77-79 | The sum of the n values the wrapped writer returned. |
| Logging.ResponseWriter.WriteHeader | internal/http-server/middleware/logging.go:65-75 | The first call records and forwards its code. Later calls change nothing. |
| Logging.ResponseWriter.Write | internal/http-server/middleware/logging.go:56-63 | A write with no header before it first forwards 200. The data is forwarded, (n, err) are returned as the wrapped writer gave them, and n is added to the count. |
| Logging.TotalNonNegative | internal/http-server/middleware/logging.go:60-61 | With non-negative counts from the wrapped writer, the byte count is never negative. |
| RequestSizing.Request.constructor | internal/http-server/middleware/request_sizing.go:23 | A request holds its declared length and its body. |
| RequestSizing.Handle | internal/http-server/middleware/request_sizing.go:17-25 | A declared length over 5 MiB gets 413 "request too large" with the body untouched. Any other length, -1 included, is passed on with the body capped at 5 MiB. |
| RequestSizing.AdmitsCases | internal/http-server/middleware/request_sizing.go:8-18 | MaxUploadSize is 5242880. 1 KiB, exactly 5 MiB and -1 pass, and one byte more does not. |
| RequestSizing.CappedRead | internal/http-server/middleware/request_sizing.go:23 | Behind the cap a handler reads at most 5 MiB. A body within the limit reads as sent, and a longer one reads as a prefix with "http: request body too large". |
| Reader.CollapseSlashes | internal/proxy/reader.go:104 | No "//" is left, nothing is lengthened, and the first character is kept. |
| Reader.CleanSlashes | internal/proxy/reader.go:104 | No "//" and no trailing '/' except on the root. |
| Reader.PathJoin | internal/proxy/reader.go:104 | The joined path has no "//" and no trailing '/' except on the root; it is empty only when both elements are; two clean elements are joined with exactly one '/'. |
| Reader.ExpandPath | internal/proxy/reader.go:98-107 | A name not starting with "~" is returned unchanged. "~rest" becomes Join(home, rest), and a failed home lookup gives its error. |
| Reader.ExpandPathExample | internal/proxy/reader.go:98-107 | "~/test" under "/home/user" is "/home/user/test". Absolute and relative paths are unchanged. |
| Reader.ReadString | internal/proxy/reader.go:54-57 | EOF iff there is no newline, and then the whole rest. Otherwise the text up to and including the first newline, and what follows. |
| Reader.RawLinesSplit | internal/proxy/reader.go:54-59 | The file reader's lines are the newline-separated pieces, each with its newline, and the last piece is dropped. |
| Reader.SendIsFileLines | internal/proxy/reader.go:46-60 | The loop sends the trimmed newline-terminated lines, empty ones included, in order. It stops with cancellation exactly when the context is found done before the lines run out, having sent the lines before that point. |
| Reader.SendLines | internal/proxy/reader.go:46-60 | The reading loop computes `Send`. |
| Reader.FileRead | internal/proxy/reader.go:33-63 | A path or open error is returned with nothing sent. Otherwise, when reads end in io.EOF, all the file's lines go out and Close's error is returned, or the prefix before cancellation and ctx.Err(). When a read fails with another error, the loop goes on until cancellation, and what it sent is `Failing` of the file up to the cancelling line, with ctx.Err(). |
| Reader.FailingLines | internal/proxy/reader.go:54-59 | After a failing read the loop sends the file's lines, then the trimmed text after the last newline, then an empty line on every further attempt; one line per attempt, without end. |
| Reader.SendIsFailing | internal/proxy/reader.go:46-60 | With a failing read the loop stops only by cancellation, and it has then sent one line per attempt, as `Failing` gives them. |
| Reader.FileReadChecked | internal/proxy/reader.go:33-63 | The corrected reader always ends: the file's lines, cut at cancellation, and the read error when one ended the loop. |
| Reader.Keep | internal/proxy/reader.go:84-94 | Nothing sent is empty or "exit". |
| Reader.ExitAt | internal/proxy/reader.go:86-88 | The index of the first "exit", or the number of lines. |
| Reader.KeepStopsAtExit | internal/proxy/reader.go:86-88 | Nothing after the first "exit" is sent. |
| Reader.KeepIsFilter | internal/proxy/reader.go:84-94 | What is sent is exactly the non-empty trimmed lines before the first "exit", in input order. |
| Reader.KeepConcat | internal/proxy/reader.go:90-94 | Before an "exit", lines are filtered one by one. |
| Reader.Filter | internal/proxy/reader.go:90-92 | No kept line is empty. |
| Reader.FilterConcat | internal/proxy/reader.go:90-94 | The filter of a concatenation is the concatenation of the filters. |
| Reader.StdinExample | internal/proxy/reader.go:84-94 | Two addresses and "exit" send the two addresses. |
| Reader.ScanIsAccepted | internal/proxy/reader.go:72-95 | The reading loop sends the accepted lines up to the first of cancellation and "exit". It returns ctx.Err() on cancellation, nil at "exit", and scanner.Err() when the input runs out. |
| Reader.ScanLines | internal/proxy/reader.go:72-95 | The scanning loop computes `Scan`. |
| Reader.StdinRead | internal/proxy/reader.go:65-96 | A prompt error is returned with nothing sent. Otherwise the result is `Accepted` of the lines, or of the lines before cancellation with ctx.Err(), ending in nil at "exit" or scanner.Err() at the end of input. |
| Text.TrimSpaceSpec | internal/proxy/reader.go:84 | strings.TrimSpace gives the piece of the input that is left once its leading and its trailing white space are removed: everything before and after that piece is white space, neither end of the piece is, and an input without white space comes back unchanged. |
| Text.Contains | internal/proxy/checker.go:162 | strings.Contains holds iff the substring occurs at some position. |
| Text.Before | pkg/checker/checker.go:38 | The prefix before the first separator, which holds none. The separator comes right after it unless the prefix is everything. |
| Text.Split | internal/http-server/handler/check.go:85 | strings.Split gives at least one part, and no part holds the separator. |
| Text.JoinSplit | internal/http-server/handler/check.go:85 | Joining the parts of a split gives back the text. |
| Text.SplitJoin | cmd/main.go:64 | Splitting a join of separator-free parts gives back the parts. |
| Text.NatToString | internal/logger/pretty_handler.go:22 | At least one decimal digit, no leading zero. |
| Text.ParseNatToString | internal/logger/pretty_handler.go:22 | Reading a formatted number back gives the number. |
| Text.NatToStringParse | cmd/main.go:64 | Formatting the value of a canonical digit string gives the string. |
| PrettyHandler.ColorizeInjective | internal/logger/pretty_handler.go:21-23 | colorize loses nothing: equal outputs have equal colour code and text. |
| PrettyHandler.ColorizeExample | internal/logger/pretty_handler.go:21-23 | colorize(92, "info") is "\x1b[92minfo\x1b[0m". |
| PrettyHandler.ItoaInjective | internal/logger/pretty_handler.go:22 | Different numbers have different decimal texts. |
| PrettyHandler.LevelString | internal/logger/pretty_handler.go:39 | The four slog levels are named DEBUG, INFO, WARN and ERROR. |
| PrettyHandler.LevelStringOffsets | internal/logger/pretty_handler.go:39 | Levels in between are named relative to the one below, such as "INFO+2". |
| PrettyHandler.ColorCode | internal/logger/pretty_handler.go:41-52 | Debug is 96, Info 92, Warn 93 and Error 91. The code is non-zero iff the level is one of those four. |
| PrettyHandler.LastWith | internal/logger/pretty_handler.go:54-64 | The last attribute with the key; none after it has the key. |
| PrettyHandler.FieldsLookup | internal/logger/pretty_handler.go:54-64 | The fields map has exactly the attributes' keys, each holding the value of the last attribute with that key. |
| PrettyHandler.FieldsConcat | internal/logger/pretty_handler.go:54-64 | Storing two attribute lists is storing the first, then letting the second overwrite. |
| PrettyHandler.Handle | internal/logger/pretty_handler.go:38-86 | Fields are the record's attributes, then the handler's. A marshal error ends the call and prints nothing. Otherwise it prints the coloured "LEVEL:", the coloured message, and the gray JSON text, which is gray "" when there are no fields. |
| PrettyHandler.HandlerAttrsWin | internal/logger/pretty_handler.go:54-64 | A handler attribute overwrites a record attribute with the same key, and the record's other keys stay. |
| PrettyHandler.HandleLevels | internal/logger/pretty_handler.go:39-80 | The level is printed as its name and ":" in its colour. |
| PrettyHandler.WithAttrsExample | internal/logger/pretty_handler.go:54-94 | A record attribute and an attribute set by WithAttrs both reach the fields. |
| PrettyHandler.WithAttrs | internal/logger/pretty_handler.go:88-94 | The new handler keeps the embedded handler and the logger, and its attributes are exactly the new ones: the receiver's are replaced. |
| PrettyHandler.WithAttrsDropsEarlier | internal/logger/pretty_handler.go:88-94 | After two WithAttrs calls, the first call's attribute is not printed. |
| PrettyHandler.WithAttrsForgetsEarlier | internal/logger/pretty_handler.go:88-94 | For every handler, record and pair of calls, the fields are those of the record and the second call alone; a key set only by the first call is not printed. |
| PrettyHandler.WithAttrsKept | internal/logger/pretty_handler.go:88-94 | The corrected WithAttrs keeps the embedded handler and the logger, and its attributes are the receiver's followed by the new ones. |
| PrettyHandler.WithAttrsKeptKeepsEarlier | internal/logger/pretty_handler.go:88-94 | With the corrected WithAttrs, every earlier attribute is still printed, and later ones overwrite equal keys. |
| Root.Commands | main.go:33-37 | The runners are cli, serve and bot, in that order. |
| Root.FirstNamed | main.go:41-44 | The index of the first runner with the name, or the list's length when none has it. |
| Root.FirstNamedIs | main.go:41-44 | FirstNamed is the one named index with no named index before it. |
| Root.QuotedConcat | main.go:53-56 | The quoted list of a concatenation is the concatenation of the quoted lists. |
| Root.NoMatchMessage | main.go:53-58 | With the binary's three runners the error reads "expected 'cli' 'serve' 'bot' subcommands". |
| Root.Dispatch | main.go:28-59 | No sub-command gives "you must pass a sub-command" and touches no runner. Otherwise the first runner with the name is initialised with the remaining arguments, and run only if Init succeeds; its error is returned. With no match, the error lists every name. |
| LegacyChecker.Timeout | pkg/checker/checker.go:18 | The client timeout is seconds times 10^9 as a signed 64-bit Duration, exact when it fits. |
| LegacyChecker.TimeoutWraps | pkg/checker/checker.go:18 | The uint product wraps: 18446744074 s gives about 0.29 s. |
| LegacyChecker.Checker.constructor | pkg/checker/checker.go:16-21 | The checker keeps the endpoint and the timeout, and has no transport yet. |
| LegacyChecker.Checker.Check | pkg/checker/checker.go:23-39 | The shared transport now proxies through this address. A failed GET is (false, err). Otherwise the read error is ignored: the error is nil, and alive iff the body is exactly the text before the first ':'. |
| LegacyChecker.AliveIsExact | pkg/checker/checker.go:38 | Every body the legacy rule accepts contains the host, but a body that only contains it, as the newer checker accepts, is refused. |
| LegacyCli.OctetIsByte | cmd/main.go:64 | An octet alternative is exactly a 1-3 digit decimal with no leading zero and value at most 255. |
| LegacyCli.OctetOfByte | cmd/main.go:64 | Every number 0..255 has an octet, and it is the only octet with that value. |
| LegacyCli.AcceptedInPattern | cmd/main.go:64 | An accepted line is four octets joined by '.', then ':' and a port. |
| LegacyCli.PatternAccepted | cmd/main.go:64 | Every line of the pattern's form is accepted. |
| LegacyCli.AcceptsIsPattern | cmd/main.go:64 | `Accepts` decides the anchored pattern, in both directions. |
| LegacyCli.AcceptedExample | cmd/main.go:64 | "192.168.0.1:8080" is accepted. |
| LegacyCli.OctetCases | cmd/main.go:64 | 0, 9, 10, 199, 249 and 255 are octets. 256, 01, 00, " 1", 1000 and "" are not. |
| LegacyCli.AnyPort | cmd/main.go:64 | After four octets and a colon, the line is accepted iff the rest is one or more digits. There is no port bound. |
| LegacyCli.NoPort | cmd/main.go:64 | Four octets with a non-digit rest, or with no colon at all, are rejected. |
| LegacyCli.BadFirstOctet | cmd/main.go:64 | A line whose text before the first dot is no octet is rejected: the anchors refuse a leading space or a longer number. |
| LegacyCli.Queue | cmd/main.go:86-96 | The scanner loop queues `Queued(lines)`. |
| LegacyCli.QueuedMembers | cmd/main.go:88-94 | A line is queued iff it is in the input and is accepted. |
| LegacyCli.QueuedAll | cmd/main.go:88-94 | A list of accepted lines is queued whole, in order. |
| LegacyCli.QueuedConcat | cmd/main.go:86-96 | Queueing keeps scan order: the queue of a concatenation is the concatenation of the queues. |
| LegacyCli.AcceptedHasColon | cmd/main.go:64 | Every queued line holds ':', so the checker's slice never panics. |
| LegacyCli.Work | cmd/main.go:71-84 | The workers deliver one result per job in completion order: alive iff the GET succeeded and the body was the host. The shared transport is left at the last proxy checked. |
| LegacyCli.ProxiesForwarded | cmd/main.go:75-82 | The proxies of the delivered results are the pool stream of the jobs, all passing. |
| LegacyCli.SuccessesAllPass | cmd/main.go:75-82 | With every job passing, the successes are the jobs. |
| LegacyCli.EveryJobReported | cmd/main.go:75-82 | Every queued line yields exactly one result, whatever its check returned and whatever the order. |
| LegacyCli.DeliveredAt | cmd/main.go:76-81 | The i-th delivered result is the i-th completed job with its liveness. |
| LegacyCli.Collect | cmd/main.go:103-115 | The collector appends the live proxies to alive in arrival order, and prints "<proxy> failed" for each dead one in arrival order. |
| LegacyCli.CollectPartition | cmd/main.go:106-112 | Every result goes to exactly one of the two lists. |
| LegacyCli.CollectMembers | cmd/main.go:106-112 | A proxy is alive iff a live result for it came in, and printed as failed iff a dead one did. |
| LegacyCli.Indices | cmd/main.go:121-123 | There are as many printed lines as live proxies. |
| LegacyCli.IndicesAt | cmd/main.go:121-123 | The k-th printed line is the decimal index k. |
| LegacyCli.PrintIndices | cmd/main.go:121-123 | The final loop as written prints 0, 1, …, len(alive)-1. |
| LegacyCli.IndexIsNoAddress | cmd/main.go:121-123 | A printed index is never an accepted proxy line. |
| LegacyCli.PrintedIndicesAreWrong | cmd/main.go:121-123 | With at least one live proxy, the output as written differs from the live list and contains none of its proxies. |
| LegacyCli.PrintAlive | cmd/main.go:121-123 | The corrected final loop prints the live proxies, one per line, in order. |
| LegacyCli.Run | cmd/main.go:62-123 | The program from the scanned lines on, with the corrected final loop: the failed lines as results arrive, then the live proxies. |
| LegacyCli.EveryLineReported | cmd/main.go:86-115 | Each queued line is reported once, as failed or as alive, whatever the completion order. |

## Left out

- Goroutines, channels, WaitGroups and `select`. Schedules, arrival orders and the select branch are inputs. A run is modelled as one sequential pass in completion order.
- The data race in cmd/main.go. All ten workers write `c.Http.Transport` on one shared client (pkg/checker/checker.go:25), so a GET may go through another worker's proxy. `LegacyCli.Work` runs the checks one after another, so it does not model that interleaving.
- The goroutine leak in `CheckOne`. After the first success, the second probe blocks forever on the unbuffered channel (internal/proxy/checker.go:107-115). Nothing of it is visible in the result.
- Real networking: `http.Client`, proxies, SOCKS5, `url.URL`, `net.SplitHostPort`, DNS and timeouts. Their outcomes are inputs (`ProxyChecker.Response`, the `gets` and `bodies` of the legacy tool, and the host option of the rate limiter).
- `golang.org/x/time/rate`. It is modelled as "grant iff never granted or at least one second since the last grant". A refusal leaves the bucket as it was.
- The sweep goroutine's one-minute sleep. `RateLimiting.Limiter.Sweep` is one pass of its loop, and the time is an input.
- The mutex of the rate limiter. The handler holds it across `next.ServeHTTP` (internal/http-server/middleware/rate_limiting.go:44-56), so the requests that pass this middleware are handled one at a time, proxy checks included, and the sweep waits for them. The model treats requests one by one and does not show this loss of concurrency.
- Case-insensitive key matching and null strings in encoding/json's decoding. `Handler.WireOf` reads back only documents with exact keys and string values.
- The text of encoding/json, `json.MarshalIndent` and `html/template`. The documents are `Http.Json` values or `Handler.Wire` values, template output is an `ExecuteTemplate` action, and the model takes as input what a decoder made of a body.
- The time stamp of pretty_handler.go:76 and the logger's output plumbing. Attribute values are kept as text.
- `strings.TrimSpace` is written out over the Unicode White_Space characters. There is no UTF-8 decoding.
- `filepath.Join`: `Reader.PathJoin` joins two elements with '/', collapses slash runs and drops a trailing slash. It does not resolve "." or "..".
- `user.Current()`, `os.Open` and `file.Close`: their results are inputs.
- bufio.Scanner's token size limit.
- The stdin prompt text: what printing it returns is an input.
- The legacy tool's flag parsing, configuration file and file checks (cmd/main.go:28-60, cmd/main.go:126-146); each of these ends the process.
- The legacy scanner error, which log.Fatal reports only after the jobs are closed (cmd/main.go:98-100).
- `ProxyCheckForm` (internal/http-server/handler/check.go:62-68). It renders a fixed template with no data, and its only branch logs the template error.
- The logging middleware's own handler (internal/http-server/middleware/logging.go:9-39), which only logs `Status`, `BytesWritten` and the elapsed time. The model has no log.
- Configuration, the bot (cmd/bot.go), the cli and serve commands, internal/proxy/writer.go, routes and the server: they are not part of this model.
- Reader.FileRead: channel sends are the returned `sent` sequence. A send blocked by a full channel while the context is cancelled is not modelled.
- Reader.FileRead: a read error other than io.EOF is modelled as one that repeats on every later read, after the text the file yields. A run with such an error and a context that is never cancelled does not end (see Findings), and the model requires a cancelling line for it.
- Reader.StdinRead: channel sends are the returned `sent` sequence. A send blocked by a full channel while the context is cancelled is not modelled.
- CheckHandler.RunChecking: the per-line check is an input `verdicts`. As written, runChecking calls `checker.Check(ctx, line)` on a `*proxy.Checker` and expects a (string, error) result. The method of that name in internal/proxy/checker.go takes a channel, and the method with that result is `CheckOne`, which the model uses. Cancellation is covered by a partial schedule.
- Root.Dispatch: takes `os.Args`, program name included, because `root` reads the sub-command from `os.Args` rather than from its argument. What Init and Run return is part of each runner.
- PrettyHandler.Handle: the single "\n" and spaces that `log.Println` adds are left out. The three coloured parts are returned in order instead.
- PrettyHandler.WithAttrs: `WithGroup` is not modelled; the handler inherits it unchanged from the embedded JSON handler.
- ProxyChecker.Check: with `concurrency == 0` no worker starts and no line is taken, so the model requires an empty schedule for that case. A negative concurrency makes `make(chan string, c.Concurrency)` panic (internal/proxy/checker.go:63); the model requires `concurrency >= 0` and does not model the panic.
- LegacyChecker.Checker.Check: the body read error is passed in but, as in the source, never used.
- The tests that are written against a different API (handler/check_proxy_test.go, the message checked in main_test.go, and the two-argument RequestSizing in its test) are not followed. The model follows the code.

## Findings

| source | as written | input that shows it | evidently intended | confidence | as-written member | corrected member |
|---|---|---|---|---|---|---|
| cmd/main.go:121-123 | `for proxy := range alive` binds the index, so the program prints 0, 1, … | any run with a live proxy, such as alive = ["1.2.3.4:80"], prints "0" | print the live proxies | high (not executed) | LegacyCli.PrintIndices, LegacyCli.PrintedIndicesAreWrong | LegacyCli.PrintAlive, LegacyCli.Run |
| internal/logger/pretty_handler.go:88-94 | WithAttrs replaces the handler's attributes with the new ones | WithAttrs(WithAttrs(h, [a=1]), [b=2]) no longer prints a=1 | keep the receiver's attributes and append the new ones, as slog's Handler contract asks | high (not executed) | PrettyHandler.WithAttrs, PrettyHandler.WithAttrsForgetsEarlier | PrettyHandler.WithAttrsKept, PrettyHandler.WithAttrsKeptKeepsEarlier |
| internal/proxy/checker.go:45-57 | the select may take the nil on errCh while results are still buffered in resCh | one worker and one live address: the select takes the error stream with the address still buffered, and AwaitCheck returns [] with nil | drain resCh until it is closed, and let only cancellation cut the collection short | medium (not executed; depends on select's random choice) | ProxyChecker.AwaitCheck, ProxyChecker.AwaitCheckDropsBufferedResult | ProxyChecker.CollectedAll, ProxyChecker.AwaitCheckDrained, ProxyChecker.AwaitAllAfterCheck |
| internal/proxy/reader.go:54-59 | only io.EOF ends the loop; any other ReadString error is ignored, the partial line is sent, and bufio.Reader clears the error, so the next read fails again | a path naming a directory: os.Open succeeds and every read fails, so the reader sends "" over and over until the context is cancelled | return the read error and stop | high (not executed) | Reader.FileRead, Reader.FailingLines | Reader.FileReadChecked |
