/** internal/proxy/reader.go: the two sources of proxy lines. The file reader
    sends the trimmed text of every newline-terminated line of the file; the
    standard-input reader sends every trimmed non-empty line until it reads
    "exit". Both look at the context before each line. The file's content, the
    scanner's lines, the home directory lookup and the errors of the operating
    system are inputs; `cancel == Some(k)` says the context is found done at the
    check before line k. */
module Reader {
  import opened Text
  import opened Errors

  /** Runs of '/' become one '/'. */
  function CollapseSlashes(s: string): (r: string)
    ensures |r| <= |s|
    ensures s == [] <==> r == []
    ensures forall k :: 0 <= k < |r| - 1 ==> !(r[k] == '/' && r[k + 1] == '/')
    ensures s != [] ==> r[0] == s[0]
    decreases |s|
  {
    if |s| < 2 then s
    else if s[0] == '/' && s[1] == '/' then CollapseSlashes(s[1..])
    else [s[0]] + CollapseSlashes(s[1..])
  }

  /** filepath.Clean limited to slashes: runs collapsed and a trailing one
      dropped unless it is the root. */
  function CleanSlashes(s: string): (r: string)
    ensures forall k :: 0 <= k < |r| - 1 ==> !(r[k] == '/' && r[k + 1] == '/')
    ensures |r| > 1 ==> r[|r| - 1] != '/'
    ensures s == [] <==> r == []
  {
    var c := CollapseSlashes(s);
    if |c| > 1 && c[|c| - 1] == '/' then
      assert c[|c| - 2] != '/';
      c[..|c| - 1]
    else c
  }

  /** No two slashes in a row. */
  predicate NoDoubleSlash(s: string) {
    forall k :: 0 <= k < |s| - 1 ==> !(s[k] == '/' && s[k + 1] == '/')
  }

  /** Text without a run of slashes is its own collapse. */
  lemma {:induction false} CollapseClean(s: string)
    requires NoDoubleSlash(s)
    ensures CollapseSlashes(s) == s
    decreases |s|
  {
    if |s| >= 2 {
      assert NoDoubleSlash(s[1..]);
      CollapseClean(s[1..]);
      assert s == [s[0]] + s[1..];
    }
  }

  /** Two non-empty elements without slash runs, with no slash where they
      meet and none at the end. */
  predicate Joinable(elem: string, rest: string) {
    && elem != [] && rest != [] && NoDoubleSlash(elem) && NoDoubleSlash(rest)
    && elem[|elem| - 1] != '/' && rest[0] != '/' && rest[|rest| - 1] != '/'
  }

  /** filepath.Join(elem, rest) for two elements: the non-empty ones joined
      with '/', then cleaned. */
  function PathJoin(elem: string, rest: string): (r: string)
    ensures NoDoubleSlash(r)
    ensures |r| > 1 ==> r[|r| - 1] != '/'
    ensures r == [] <==> elem == [] && rest == []
    ensures Joinable(elem, rest) ==>
      r == elem + "/" + rest
  {
    if elem == [] && rest == [] then []
    else if elem == [] then CleanSlashes(rest)
    else if rest == [] then CleanSlashes(elem)
    else
      JoinClean(elem, rest);
      CleanSlashes(elem + "/" + rest)
  }

  /** Two clean elements joined with one '/' need no cleaning. */
  lemma JoinClean(elem: string, rest: string)
    ensures Joinable(elem, rest) ==>
      CleanSlashes(elem + "/" + rest) == elem + "/" + rest
  {
    var joined := elem + "/" + rest;
    if Joinable(elem, rest) {
      assert NoDoubleSlash(joined) by {
        forall k | 0 <= k < |joined| - 1
          ensures !(joined[k] == '/' && joined[k + 1] == '/')
        {
          if k < |elem| - 1 {
            assert joined[k] == elem[k] && joined[k + 1] == elem[k + 1];
          } else if k > |elem| {
            assert joined[k] == rest[k - |elem| - 1] && joined[k + 1] == rest[k - |elem|];
          }
        }
      }
      CollapseClean(joined);
    }
  }

  /** expandPath: a leading "~" is the user's home directory. */
  function ExpandPath(filename: string, home: Result<string>): (r: Result<string>)
    ensures (filename == [] || filename[0] != '~') ==> r == Ok(filename)
    ensures filename != [] && filename[0] == '~' && home.Err? ==> r == Err(home.error)
    ensures filename != [] && filename[0] == '~' && home.Ok? ==> r == Ok(PathJoin(home.value, filename[1..]))
  {
    if filename != [] && filename[0] == '~' then
      match home
      case Err(e) => Err(e)
      case Ok(dir) => Ok(PathJoin(dir, filename[1..]))
    else Ok(filename)
  }

  lemma CollapseStep(c: char, s: string)
    requires s != [] && !(c == '/' && s[0] == '/')
    ensures CollapseSlashes([c] + s) == [c] + CollapseSlashes(s)
  {
    assert ([c] + s)[1..] == s;
  }

  /** Text with no run of slashes is left alone in front of the rest. */
  lemma {:induction false} CollapseAppend(a: string, b: string)
    requires forall k :: 0 <= k < |a| - 1 ==> !(a[k] == '/' && a[k + 1] == '/')
    requires a != [] && b != [] && !(a[|a| - 1] == '/' && b[0] == '/')
    ensures CollapseSlashes(a + b) == a + CollapseSlashes(b)
    decreases |a|
  {
    if |a| == 1 {
      CollapseStep(a[0], b);
      assert [a[0]] + b == a + b;
    } else {
      CollapseAppend(a[1..], b);
      assert a + b == [a[0]] + (a[1..] + b);
      CollapseStep(a[0], a[1..] + b);
    }
  }

  /** The reader's test: "~/test" under the home directory "/home/user". */
  lemma ExpandPathExample()
    ensures ExpandPath("~/test", Ok("/home/user")) == Ok("/home/user/test")
    ensures ExpandPath("/absolute/path", Ok("/home/user")) == Ok("/absolute/path")
    ensures ExpandPath("relative/path", Ok("/home/user")) == Ok("relative/path")
  {
    assert "~/test"[1..] == "/test";
    HomeJoin();
  }

  lemma HomeJoin()
    ensures PathJoin("/home/user", "/test") == "/home/user/test"
  {
    assert "/home/user" + "/" + "/test" == "/home/user" + "//test";
    SlashTest();
    CollapseAppend("/home/user", "//test");
    assert "/home/user" + "/test" == "/home/user/test";
  }

  lemma SlashTest()
    ensures CollapseSlashes("//test") == "/test"
  {
    CollapseAppend("/tes", "t");
    assert "/tes" + "t" == "/test";
    assert "//test"[1..] == "/test";
  }

  /** bufio.Reader.ReadString('\n'): the text up to and including the next
      newline, and what follows; at the end of the input without a newline, the
      remainder and io.EOF. */
  function ReadString(s: string): (r: (string, string, bool))
    ensures r.2 <==> '\n' !in s
    ensures r.2 ==> r.0 == s && r.1 == []
    ensures !r.2 ==> r.0 + r.1 == s && |r.1| < |s| && r.0 == Before(s, '\n') + "\n"
  {
    var head := Before(s, '\n');
    if |head| == |s| then
      assert head == s;
      (s, [], true)
    else
      assert s == head + "\n" + s[|head| + 1..];
      (head + "\n", s[|head| + 1..], false)
  }

  /** The newline-terminated lines of s, each with its newline, in order. */
  function RawLines(s: string): seq<string>
    decreases |s|
  {
    var (line, rest, eof) := ReadString(s);
    if eof then [] else [line] + RawLines(rest)
  }

  /** strings.TrimSpace of every line. */
  function TrimAll(lines: seq<string>): (r: seq<string>)
    ensures |r| == |lines|
    ensures forall k :: 0 <= k < |lines| ==> r[k] == TrimSpace(lines[k])
  {
    seq(|lines|, k requires 0 <= k < |lines| => TrimSpace(lines[k]))
  }

  /** What the file reader sends for a file whose content is s. */
  function FileLines(s: string): seq<string> {
    TrimAll(RawLines(s))
  }

  /** One line is sent per newline in the file: each newline-terminated line,
      trimmed, in order, empty ones included; a last line without a newline is not
      sent. */
  lemma {:induction false} RawLinesSplit(s: string)
    ensures |RawLines(s)| == |Split(s, '\n')| - 1
    ensures forall k :: 0 <= k < |RawLines(s)| ==> RawLines(s)[k] == Split(s, '\n')[k] + "\n"
    decreases |s|
  {
    var head := Before(s, '\n');
    if |head| < |s| {
      var rest := s[|head| + 1..];
      RawLinesSplit(rest);
      assert ReadString(s) == (head + "\n", rest, false);
      var parts, lines := Split(s, '\n'), RawLines(s);
      assert parts == [head] + Split(rest, '\n');
      assert lines == [head + "\n"] + RawLines(rest);
      forall k | 0 <= k < |lines|
        ensures lines[k] == parts[k] + "\n"
      {
        if k > 0 {
          assert lines[k] == RawLines(rest)[k - 1] && parts[k] == Split(rest, '\n')[k - 1];
        }
      }
    } else {
      assert ReadString(s).2;
    }
  }

  lemma RawLinesStep(s: string)
    requires '\n' in s
    ensures RawLines(s) == [ReadString(s).0] + RawLines(ReadString(s).1)
  {
  }

  /** FileReader.Read. `content` is the text the file yields; when readErr is
      Some, every read after that text fails with that error, which is not
      io.EOF (reading a directory fails like this). Such an error does not end
      the loop: the partial line is sent, and then an empty line on every
      further attempt, so the call ends only when the context is found done. */
  method FileRead(filename: string, home: Result<string>, openErr: Outcome, content: string, readErr: Option<GoError>,
                  cancel: Option<nat>, ctxErr: GoError, closeErr: Outcome)
    returns (sent: seq<string>, err: Outcome)
    requires ExpandPath(filename, home).Ok? && openErr.Pass? && readErr.Some? ==> cancel.Some?
    ensures ExpandPath(filename, home).Err? ==> sent == [] && err == Fail(ExpandPath(filename, home).error)
    ensures ExpandPath(filename, home).Ok? && openErr.Fail? ==> sent == [] && err == openErr
    ensures ExpandPath(filename, home).Ok? && openErr.Pass? && readErr.None? ==>
      if cancel.Some? && cancel.value <= |FileLines(content)|
      then sent == FileLines(content)[..cancel.value] && err == Fail(ctxErr)
      else sent == FileLines(content) && err == closeErr
    ensures ExpandPath(filename, home).Ok? && openErr.Pass? && readErr.Some? ==>
      sent == Failing(content, cancel.value) && err == Fail(ctxErr)
  {
    var path := ExpandPath(filename, home);
    if path.Err? {
      return [], Fail(path.error);
    }
    if openErr.Fail? {
      return [], openErr;
    }
    if readErr.None? {
      SendIsFileLines(content, 0, cancel, []);
    } else {
      SendIsFailing(content, 0, cancel.value, [], readErr.value);
    }
    var cancelled;
    sent, cancelled := SendLines(content, readErr, cancel);
    err := if cancelled then Fail(ctxErr) else closeErr;
  }

  /** FileReader.Read as it is evidently meant to work: a read error other than
      io.EOF ends the loop and is returned, so the call always ends. */
  method FileReadChecked(filename: string, home: Result<string>, openErr: Outcome, content: string, readErr: Option<GoError>,
                         cancel: Option<nat>, ctxErr: GoError, closeErr: Outcome)
    returns (sent: seq<string>, err: Outcome)
    ensures ExpandPath(filename, home).Err? ==> sent == [] && err == Fail(ExpandPath(filename, home).error)
    ensures ExpandPath(filename, home).Ok? && openErr.Fail? ==> sent == [] && err == openErr
    ensures ExpandPath(filename, home).Ok? && openErr.Pass? ==>
      if cancel.Some? && cancel.value <= |FileLines(content)|
      then sent == FileLines(content)[..cancel.value] && err == Fail(ctxErr)
      else sent == FileLines(content) && err == (if readErr.Some? then Fail(readErr.value) else closeErr)
  {
    var path := ExpandPath(filename, home);
    if path.Err? {
      return [], Fail(path.error);
    }
    if openErr.Fail? {
      return [], openErr;
    }
    SendIsFileLines(content, 0, cancel, []);
    var cancelled;
    sent, cancelled := SendLines(content, None, cancel);
    err := if cancelled then Fail(ctxErr) else if readErr.Some? then Fail(readErr.value) else closeErr;
  }

  /** The file reader's loop from the line at index i on, with what is left of
      the file in rest and the lines in sent already sent: all the lines it
      sends, and whether it stops because the context is done. At the end of
      the text, ReadString's error is io.EOF when readErr is None and readErr
      otherwise; only io.EOF ends the loop. */
  function Send(rest: string, i: nat, cancel: Option<nat>, sent: seq<string>, readErr: Option<GoError>): (r: (seq<string>, bool))
    requires cancel.Some? ==> i <= cancel.value
    requires readErr.Some? ==> cancel.Some?
    decreases |rest|, if cancel.Some? then cancel.value - i else 0
  {
    if cancel == Some(i) then (sent, true)
    else
      var r := ReadString(rest);
      if r.2 && readErr.None? then (sent, false)
      else Send(r.1, i + 1, cancel, sent + [TrimSpace(r.0)], readErr)
  }

  /** The text after the last newline. */
  function Tail(s: string): (t: string)
    ensures '\n' !in t
    decreases |s|
  {
    if '\n' in s then Tail(ReadString(s).1) else s
  }

  /** The first n lines the file reader sends when every read after the text s
      fails with an error other than io.EOF. */
  function Failing(s: string, n: nat): seq<string>
    decreases |s|, n
  {
    if n == 0 then []
    else [TrimSpace(ReadString(s).0)] + Failing(ReadString(s).1, n - 1)
  }

  /** What a failing read makes the loop send: the file's lines, then the
      trimmed text after the last newline, then an empty line for every further
      attempt, without end. */
  lemma {:induction false} FailingLines(s: string, n: nat)
    ensures |Failing(s, n)| == n
    ensures forall k :: 0 <= k < n && k < |FileLines(s)| ==> Failing(s, n)[k] == FileLines(s)[k]
    ensures n > |FileLines(s)| ==> Failing(s, n)[|FileLines(s)|] == TrimSpace(Tail(s))
    ensures forall k :: |FileLines(s)| < k < n ==> Failing(s, n)[k] == ""
    decreases |s|, n
  {
    if n > 0 {
      var r := ReadString(s);
      var t := TrimSpace(r.0);
      assert Failing(s, n) == [t] + Failing(r.1, n - 1);
      FailingLines(r.1, n - 1);
      if '\n' in s {
        FileLinesStep(s);
        assert Tail(s) == Tail(r.1);
        ConsFailing(Failing(s, n), Failing(r.1, n - 1), FileLines(s), FileLines(r.1), t, TrimSpace(Tail(s)), n);
      } else {
        assert RawLines(s) == [] && FileLines(s) == [];
        assert r.0 == s == Tail(s) && r.1 == [];
        assert RawLines([]) == [] && FileLines([]) == [];
        assert TrimSpace(Tail([])) == "";
        BlankFailing(Failing(s, n), Failing(r.1, n - 1), t, n);
      }
    }
  }

  /** After the last piece of text, every attempt sends an empty line. */
  lemma BlankFailing(f: seq<string>, g: seq<string>, t: string, n: nat)
    requires n > 0 && f == [t] + g && |g| == n - 1
    requires n - 1 > 0 ==> g[0] == ""
    requires forall k :: 0 < k < n - 1 ==> g[k] == ""
    ensures f[0] == t
    ensures forall k :: 0 < k < n ==> f[k] == ""
  {
    forall k | 0 < k < n
      ensures f[k] == ""
    {
      assert f[k] == g[k - 1];
    }
  }

  /** The facts of FailingLines carried over one line sent in front. */
  lemma ConsFailing(f: seq<string>, g: seq<string>, lines: seq<string>, rest: seq<string>, t: string, last: string, n: nat)
    requires n > 0 && f == [t] + g && lines == [t] + rest && |g| == n - 1
    requires forall k :: 0 <= k < n - 1 && k < |rest| ==> g[k] == rest[k]
    requires n - 1 > |rest| ==> g[|rest|] == last
    requires forall k :: |rest| < k < n - 1 ==> g[k] == ""
    ensures forall k :: 0 <= k < n && k < |lines| ==> f[k] == lines[k]
    ensures n > |lines| ==> f[|lines|] == last
    ensures forall k :: |lines| < k < n ==> f[k] == ""
  {
    forall k | 0 < k < n
      ensures f[k] == g[k - 1]
    {
    }
  }

  lemma FileLinesStep(s: string)
    requires '\n' in s
    ensures FileLines(s) == [TrimSpace(ReadString(s).0)] + FileLines(ReadString(s).1)
  {
    RawLinesStep(s);
  }

  /** Without a read error the loop sends the file's lines in order, up to the
      line at which the context is found done, if there is one. */
  lemma {:induction false} SendIsFileLines(rest: string, i: nat, cancel: Option<nat>, sent: seq<string>)
    requires cancel.Some? ==> i <= cancel.value
    ensures Send(rest, i, cancel, sent, None).1 <==> cancel.Some? && cancel.value - i <= |FileLines(rest)|
    ensures Send(rest, i, cancel, sent, None).1 ==> Send(rest, i, cancel, sent, None).0 == sent + FileLines(rest)[..cancel.value - i]
    ensures !Send(rest, i, cancel, sent, None).1 ==> Send(rest, i, cancel, sent, None).0 == sent + FileLines(rest)
    decreases |rest|
  {
    var out := Send(rest, i, cancel, sent, None);
    if cancel == Some(i) {
      assert out == (sent, true);
      assert sent + FileLines(rest)[..0] == sent;
    } else if '\n' !in rest {
      assert ReadString(rest).2;
      assert out == (sent, false);
      assert RawLines(rest) == [];
      assert sent + FileLines(rest) == sent;
    } else {
      var r := ReadString(rest);
      var t := TrimSpace(r.0);
      assert !r.2;
      assert out == Send(r.1, i + 1, cancel, sent + [t], None);
      SendIsFileLines(r.1, i + 1, cancel, sent + [t]);
      FileLinesStep(rest);
      ConsPrefix(sent, t, FileLines(r.1), if cancel.Some? then cancel.value - i else 0);
    }
  }

  /** With a read error the loop runs until the context is found done, having
      sent exactly one line per attempt before that. */
  lemma {:induction false} SendIsFailing(rest: string, i: nat, c: nat, sent: seq<string>, e: GoError)
    requires i <= c
    ensures Send(rest, i, Some(c), sent, Some(e)) == (sent + Failing(rest, c - i), true)
    decreases |rest|, c - i
  {
    if i == c {
      assert Failing(rest, 0) == [];
      assert sent + [] == sent;
    } else {
      var r := ReadString(rest);
      var t := TrimSpace(r.0);
      var g := Failing(r.1, c - i - 1);
      SendStep(rest, i, Some(c), sent, Some(e));
      SendIsFailing(r.1, i + 1, c, sent + [t], e);
      assert Failing(rest, c - i) == [t] + g;
      assert (sent + [t]) + g == sent + ([t] + g);
    }
  }

  /** One round of the loop that neither stops for the context nor at io.EOF. */
  lemma SendStep(rest: string, i: nat, cancel: Option<nat>, sent: seq<string>, readErr: Option<GoError>)
    requires cancel.Some? ==> i < cancel.value
    requires readErr.Some? ==> cancel.Some?
    requires readErr.Some? || '\n' in rest
    ensures Send(rest, i, cancel, sent, readErr)
      == Send(ReadString(rest).1, i + 1, cancel, sent + [TrimSpace(ReadString(rest).0)], readErr)
  {
  }

  lemma Associative<T>(a: seq<T>, b: seq<T>, c: seq<T>)
    ensures (a + b) + c == a + (b + c)
  {
  }

  /** Moving one element from the front of a sequence to the end of another. */
  lemma ConsPrefix<T>(sent: seq<T>, t: T, tail: seq<T>, n: int)
    ensures (sent + [t]) + tail == sent + ([t] + tail)
    ensures 1 <= n <= 1 + |tail| ==> (sent + [t]) + tail[..n - 1] == sent + ([t] + tail)[..n]
  {
    if 1 <= n <= 1 + |tail| {
      assert ([t] + tail)[..n] == [t] + tail[..n - 1];
    }
  }

  /** The loop of FileReader.Read: read and send lines until ReadString reports
      io.EOF, or until the context is found done. */
  method SendLines(content: string, readErr: Option<GoError>, cancel: Option<nat>) returns (sent: seq<string>, cancelled: bool)
    requires readErr.Some? ==> cancel.Some?
    ensures (sent, cancelled) == Send(content, 0, cancel, [], readErr)
  {
    sent := [];
    var rest := content;
    var i := 0;
    while true
      invariant cancel.Some? ==> i <= cancel.value
      invariant Send(rest, i, cancel, sent, readErr) == Send(content, 0, cancel, [], readErr)
      decreases |rest|, if cancel.Some? then cancel.value - i else 0
    {
      if cancel == Some(i) {
        return sent, true;
      }
      var r := ReadString(rest);
      if r.2 && readErr.None? {
        break;
      }
      sent := sent + [TrimSpace(r.0)];
      rest := r.1;
      i := i + 1;
    }
    cancelled := false;
  }

  /** What the standard-input reader sends for the trimmed scanner lines: the
      non-empty ones, up to the first "exit". */
  function Keep(trimmed: seq<string>): (r: seq<string>)
    ensures forall k :: 0 <= k < |r| ==> r[k] != "" && r[k] != "exit"
    ensures |r| <= |trimmed|
  {
    if trimmed == [] then []
    else if trimmed[0] == "exit" then []
    else (if trimmed[0] == "" then [] else [trimmed[0]]) + Keep(trimmed[1..])
  }

  /** The lines the standard-input reader sends for the scanner's lines. */
  function Accepted(lines: seq<string>): seq<string> {
    Keep(TrimAll(lines))
  }

  /** The index of the first line that trims to "exit", or the number of lines. */
  function ExitAt(trimmed: seq<string>): (e: nat)
    ensures e <= |trimmed|
    ensures forall k :: 0 <= k < e ==> trimmed[k] != "exit"
    ensures e < |trimmed| ==> trimmed[e] == "exit"
  {
    if trimmed == [] then 0 else if trimmed[0] == "exit" then 0 else 1 + ExitAt(trimmed[1..])
  }

  /** Lines before an "exit" are filtered one by one, in order: what is kept of a
      concatenation is what is kept of each part. */
  lemma {:induction false} KeepConcat(a: seq<string>, b: seq<string>)
    requires forall k :: 0 <= k < |a| ==> a[k] != "exit"
    ensures Keep(a + b) == Keep(a) + Keep(b)
    decreases |a|
  {
    if a != [] {
      assert (a + b)[1..] == a[1..] + b;
      KeepConcat(a[1..], b);
    } else {
      assert a + b == b;
    }
  }

  /** Nothing after the first "exit" is sent. */
  lemma {:induction false} KeepStopsAtExit(trimmed: seq<string>)
    ensures Keep(trimmed) == Keep(trimmed[..ExitAt(trimmed)])
    decreases |trimmed|
  {
    if trimmed != [] && trimmed[0] != "exit" {
      KeepStopsAtExit(trimmed[1..]);
      assert trimmed[..ExitAt(trimmed)][1..] == trimmed[1..][..ExitAt(trimmed[1..])];
    }
  }

  /** A line is sent exactly when it is one of the trimmed non-empty lines before
      the first "exit", and the lines keep their order. */
  lemma {:induction false} KeepIsFilter(trimmed: seq<string>)
    ensures Keep(trimmed) == Filter(trimmed[..ExitAt(trimmed)])
    decreases |trimmed|
  {
    if trimmed != [] && trimmed[0] != "exit" {
      KeepIsFilter(trimmed[1..]);
      var init := trimmed[..ExitAt(trimmed)];
      assert init == [trimmed[0]] + trimmed[1..][..ExitAt(trimmed[1..])];
      FilterConcat([trimmed[0]], trimmed[1..][..ExitAt(trimmed[1..])]);
      assert Filter([trimmed[0]]) == (if trimmed[0] == "" then [] else [trimmed[0]]) by {
        assert [trimmed[0]][..0] == [];
      }
    }
  }

  /** The non-empty lines, in order. */
  function Filter(lines: seq<string>): (r: seq<string>)
    ensures forall k :: 0 <= k < |r| ==> r[k] != ""
  {
    if lines == [] then []
    else Filter(lines[..|lines| - 1]) + (if lines[|lines| - 1] == "" then [] else [lines[|lines| - 1]])
  }

  lemma {:induction false} FilterConcat(a: seq<string>, b: seq<string>)
    ensures Filter(a + b) == Filter(a) + Filter(b)
    decreases |b|
  {
    if b != [] {
      assert (a + b)[..|a + b| - 1] == a + b[..|b| - 1];
      FilterConcat(a, b[..|b| - 1]);
    } else {
      assert a + b == a;
    }
  }

  /** The reader's test: two addresses and "exit" send the two addresses. */
  lemma StdinExample()
    ensures Keep(["127.0.0.1:8080", "192.168.0.1:3128", "exit"]) == ["127.0.0.1:8080", "192.168.0.1:3128"]
  {
    var t := ["127.0.0.1:8080", "192.168.0.1:3128", "exit"];
    assert t[1..] == ["192.168.0.1:3128", "exit"];
    assert t[1..][1..] == ["exit"];
  }

  /** The standard-input reader's loop from the scanner's line i on, with the
      lines in sent already sent: all the lines it sends and the error it
      returns. */
  function Scan(lines: seq<string>, i: nat, cancel: Option<nat>, scanErr: Outcome, ctxErr: GoError, sent: seq<string>): (r: (seq<string>, Outcome))
    requires i <= |lines|
    decreases |lines| - i
  {
    if cancel == Some(i) then (sent, Fail(ctxErr))
    else if i == |lines| then (sent, scanErr)
    else
      var line := TrimSpace(lines[i]);
      if line == "exit" then (sent, Pass)
      else Scan(lines, i + 1, cancel, scanErr, ctxErr, if line == "" then sent else sent + [line])
  }

  lemma TrimAllTail(lines: seq<string>)
    requires lines != []
    ensures TrimAll(lines)[0] == TrimSpace(lines[0]) && TrimAll(lines)[1..] == TrimAll(lines[1..])
  {
    assert TrimAll(lines)[1..] == TrimAll(lines[1..]);
  }

  /** What the reader does with the first of the scanner's lines. */
  lemma AcceptedStep(lines: seq<string>)
    requires lines != []
    ensures TrimSpace(lines[0]) == "exit" ==> Accepted(lines) == [] && ExitAt(TrimAll(lines)) == 0
    ensures TrimSpace(lines[0]) != "exit" ==>
      Accepted(lines) == (if TrimSpace(lines[0]) == "" then [] else [TrimSpace(lines[0])]) + Accepted(lines[1..])
      && ExitAt(TrimAll(lines)) == 1 + ExitAt(TrimAll(lines[1..]))
  {
    TrimAllTail(lines);
  }

  /** The loop sends the accepted lines, those before the point at which the
      context is found done when that comes before the first "exit"; it returns
      nil at an "exit", the context's error when it is done, and the scanner's
      error when the lines run out. */
  lemma {:induction false} ScanIsAccepted(lines: seq<string>, i: nat, cancel: Option<nat>, scanErr: Outcome, ctxErr: GoError, sent: seq<string>)
    requires i <= |lines| && (cancel.Some? ==> i <= cancel.value)
    ensures cancel.Some? && cancel.value <= i + ExitAt(TrimAll(lines[i..])) ==>
      cancel.value <= |lines|
      && Scan(lines, i, cancel, scanErr, ctxErr, sent) == (sent + Accepted(lines[i..cancel.value]), Fail(ctxErr))
    ensures !(cancel.Some? && cancel.value <= i + ExitAt(TrimAll(lines[i..]))) ==>
      Scan(lines, i, cancel, scanErr, ctxErr, sent)
      == (sent + Accepted(lines[i..]), if ExitAt(TrimAll(lines[i..])) < |lines| - i then Pass else scanErr)
    decreases |lines| - i
  {
    var rest := lines[i..];
    if cancel == Some(i) {
      assert lines[i..i] == [];
      assert sent + Accepted([]) == sent;
    } else if i == |lines| {
      assert rest == [];
      assert sent + Accepted([]) == sent;
    } else {
      AcceptedStep(rest);
      assert rest[0] == lines[i] && rest[1..] == lines[i + 1..];
      var line := TrimSpace(lines[i]);
      if line == "exit" {
        assert sent + Accepted(rest) == sent;
      } else {
        var keep := if line == "" then [] else [line];
        assert sent + [] == sent;
        assert Scan(lines, i, cancel, scanErr, ctxErr, sent) == Scan(lines, i + 1, cancel, scanErr, ctxErr, sent + keep);
        ScanIsAccepted(lines, i + 1, cancel, scanErr, ctxErr, sent + keep);
        if cancel.Some? && cancel.value <= i + ExitAt(TrimAll(rest)) {
          var part := lines[i..cancel.value];
          assert part != [] && part[0] == lines[i] && part[1..] == lines[i + 1..cancel.value];
          AcceptedStep(part);
          Associative(sent, keep, Accepted(lines[i + 1..cancel.value]));
        } else {
          Associative(sent, keep, Accepted(lines[i + 1..]));
        }
      }
    }
  }

  /** StdinReader.Read. `promptErr` is the error of printing the prompt,
      `lines` the scanner's lines and `scanErr` scanner.Err() once they run out. */
  method StdinRead(promptErr: Outcome, lines: seq<string>, scanErr: Outcome, cancel: Option<nat>, ctxErr: GoError)
    returns (sent: seq<string>, err: Outcome)
    ensures promptErr.Fail? ==> sent == [] && err == promptErr
    ensures promptErr.Pass? && cancel.Some? && cancel.value <= ExitAt(TrimAll(lines)) ==>
      sent == Accepted(lines[..cancel.value]) && err == Fail(ctxErr)
    ensures promptErr.Pass? && (cancel.None? || cancel.value > ExitAt(TrimAll(lines))) ==>
      sent == Accepted(lines) && err == (if ExitAt(TrimAll(lines)) < |lines| then Pass else scanErr)
  {
    if promptErr.Fail? {
      return [], promptErr;
    }
    ScanIsAccepted(lines, 0, cancel, scanErr, ctxErr, []);
    assert lines[0..] == lines;
    if cancel.Some? && cancel.value <= |lines| {
      assert lines[0..cancel.value] == lines[..cancel.value];
    }
    sent, err := ScanLines(lines, cancel, scanErr, ctxErr);
  }

  /** The loop of StdinReader.Read: scan, trim and send lines until an "exit",
      the end of the input, or the context is found done. */
  method ScanLines(lines: seq<string>, cancel: Option<nat>, scanErr: Outcome, ctxErr: GoError)
    returns (sent: seq<string>, err: Outcome)
    ensures (sent, err) == Scan(lines, 0, cancel, scanErr, ctxErr, [])
  {
    sent := [];
    var i := 0;
    while true
      invariant i <= |lines|
      invariant Scan(lines, i, cancel, scanErr, ctxErr, sent) == Scan(lines, 0, cancel, scanErr, ctxErr, [])
      decreases |lines| - i
    {
      if cancel == Some(i) {
        return sent, Fail(ctxErr);
      }
      if i == |lines| {
        return sent, scanErr;
      }
      var line := TrimSpace(lines[i]);
      if line == "exit" {
        return sent, Pass;
      }
      if line != "" {
        sent := sent + [line];
      }
      i := i + 1;
    }
  }
}
