/** internal/logger/pretty_handler.go: a log/slog handler that prints each record
    as a coloured level, a coloured message and its attributes in gray. The
    time stamp and the JSON text of the attributes (json.MarshalIndent) are not
    part of this model; the JSON text is an input. Attribute values are kept as
    their text. */
module PrettyHandler {
  import opened Text
  import opened Errors

  const Cyan := 96
  const Green := 92
  const Yellow := 93
  const Red := 91
  const Gray := 90

  /** The levels of log/slog. */
  const LevelDebug := -4
  const LevelInfo := 0
  const LevelWarn := 4
  const LevelError := 8

  /** colorize: the text between the terminal escape that selects the colour and
      the one that resets it. */
  function Colorize(code: int, v: string): string {
    "\U{1B}[" + Itoa(code) + "m" + v + "\U{1B}[0m"
  }

  lemma ItoaHasNoM(n: int)
    ensures 'm' !in Itoa(n)
  {
    var d := NatToString(if n < 0 then -n else n);
    assert forall k :: 0 <= k < |d| ==> IsDigit(d[k]);
    if n < 0 {
      assert Itoa(n) == "-" + d;
      assert forall k :: 0 <= k < |Itoa(n)| ==> Itoa(n)[k] == '-' || IsDigit(Itoa(n)[k]);
    }
  }

  /** Different numbers are written differently in decimal. */
  lemma ItoaInjective(a: int, b: int)
    requires Itoa(a) == Itoa(b)
    ensures a == b
  {
    var da, db := NatToString(if a < 0 then -a else a), NatToString(if b < 0 then -b else b);
    assert IsDigit(da[0]) && IsDigit(db[0]);
    if a < 0 && b < 0 {
      assert da == Itoa(a)[1..] == Itoa(b)[1..] == db;
    }
    ParseNatToString(if a < 0 then -a else a);
    ParseNatToString(if b < 0 then -b else b);
  }

  /** colorize loses nothing: the colour and the text can be read back from the
      result. */
  lemma ColorizeInjective(c1: int, v1: string, c2: int, v2: string)
    requires Colorize(c1, v1) == Colorize(c2, v2)
    ensures c1 == c2 && v1 == v2
  {
    var p, q := "\U{1B}[", "\U{1B}[0m";
    var i1, i2 := Itoa(c1), Itoa(c2);
    var s := Colorize(c1, v1);
    assert s == p + (i1 + ['m'] + (v1 + q));
    assert s == p + (i2 + ['m'] + (v2 + q));
    var rest := s[|p|..];
    assert rest == i1 + ['m'] + (v1 + q) == i2 + ['m'] + (v2 + q);
    ItoaHasNoM(c1);
    ItoaHasNoM(c2);
    BeforeOf(i1, v1 + q, 'm');
    BeforeOf(i2, v2 + q, 'm');
    ItoaInjective(c1, c2);
    assert v1 + q == rest[|i1| + 1..] == v2 + q;
    assert v1 == (v1 + q)[..|v1|] && v2 == (v2 + q)[..|v2|];
  }

  /** The colorize test: "info" in green. */
  lemma ColorizeExample()
    ensures Colorize(Green, "info") == "\U{1B}[92minfo\U{1B}[0m"
  {
    assert NatToString(9) == "9";
    assert NatToString(92) == "92";
  }

  /** slog.Level.String: the name of the level at or below the given one, and
      the distance to it with its sign when that is not 0. */
  function LevelString(level: int): (s: string)
    ensures level == LevelDebug ==> s == "DEBUG"
    ensures level == LevelInfo ==> s == "INFO"
    ensures level == LevelWarn ==> s == "WARN"
    ensures level == LevelError ==> s == "ERROR"
  {
    if level < LevelInfo then Named("DEBUG", level - LevelDebug)
    else if level < LevelWarn then Named("INFO", level - LevelInfo)
    else if level < LevelError then Named("WARN", level - LevelWarn)
    else Named("ERROR", level - LevelError)
  }

  /** The name, then the offset formatted by %+d unless it is 0. */
  function Named(base: string, offset: int): string {
    if offset == 0 then base
    else base + (if offset > 0 then "+" else "-") + NatToString(if offset > 0 then offset else -offset)
  }

  /** Levels between the named ones are written relative to the one below. */
  lemma LevelStringOffsets()
    ensures LevelString(-5) == "DEBUG-1"
    ensures LevelString(2) == "INFO+2"
    ensures LevelString(12) == "ERROR+4"
  {
    assert NatToString(1) == "1" && NatToString(2) == "2" && NatToString(4) == "4";
  }

  /** The colour switch of Handle: the four levels of slog have their colours,
      every other level gets 0. */
  function ColorCode(level: int): (code: int)
    ensures code != 0 <==> level in {LevelDebug, LevelInfo, LevelWarn, LevelError}
    ensures level == LevelDebug ==> code == Cyan
    ensures level == LevelInfo ==> code == Green
    ensures level == LevelWarn ==> code == Yellow
    ensures level == LevelError ==> code == Red
  {
    if level == LevelDebug then Cyan
    else if level == LevelInfo then Green
    else if level == LevelWarn then Yellow
    else if level == LevelError then Red
    else 0
  }

  /** An attribute of a record or of the handler. */
  datatype Attr = Attr(key: string, value: string)

  /** The fields map after storing the attributes one after the other. */
  function Fields(attrs: seq<Attr>): map<string, string> {
    if attrs == [] then map[]
    else Fields(attrs[..|attrs| - 1])[attrs[|attrs| - 1].key := attrs[|attrs| - 1].value]
  }

  /** The index of the last attribute with key k, or -1 when there is none. */
  function LastWith(attrs: seq<Attr>, k: string): (i: int)
    ensures -1 <= i < |attrs|
    ensures i >= 0 ==> attrs[i].key == k
    ensures forall j :: i < j < |attrs| ==> attrs[j].key != k
  {
    if attrs == [] then -1
    else if attrs[|attrs| - 1].key == k then |attrs| - 1
    else LastWith(attrs[..|attrs| - 1], k)
  }

  /** The fields are keyed by exactly the attributes' keys, and each key holds
      the value of the last attribute with that key. */
  lemma {:induction false} FieldsLookup(attrs: seq<Attr>, k: string)
    ensures k in Fields(attrs) <==> LastWith(attrs, k) >= 0
    ensures k in Fields(attrs) ==> Fields(attrs)[k] == attrs[LastWith(attrs, k)].value
    decreases |attrs|
  {
    if attrs != [] {
      var init := attrs[..|attrs| - 1];
      FieldsLookup(init, k);
      if attrs[|attrs| - 1].key != k && LastWith(init, k) >= 0 {
        assert attrs[LastWith(init, k)] == init[LastWith(init, k)];
      }
    }
  }

  /** Storing two lists of attributes is storing the first and then letting the
      second overwrite it. */
  lemma {:induction false} FieldsConcat(a: seq<Attr>, b: seq<Attr>)
    ensures Fields(a + b) == Fields(a) + Fields(b)
    decreases |b|
  {
    if b == [] {
      assert a + b == a;
    } else {
      var init := b[..|b| - 1];
      assert (a + b)[..|a + b| - 1] == a + init;
      FieldsConcat(a, init);
    }
  }

  /** The handler: its attributes, the JSON handler it embeds and the logger it
      prints with (the last two as identities). */
  datatype PrettyHandler = PrettyHandler(inner: nat, logger: nat, attrs: seq<Attr>)

  /** What Handle prints after the time stamp. */
  function Printed(level: int, message: string, fieldsText: string): (parts: seq<string>) {
    var code := ColorCode(level);
    [Colorize(code, LevelString(level) + ":"), Colorize(code, message), Colorize(Gray, fieldsText)]
  }

  /** Handle: the record's attributes and then the handler's go into the fields
      map; when there are fields they are printed as `encoded`, the JSON text
      json.MarshalIndent gives for them, whose error ends the call. */
  method Handle(h: PrettyHandler, level: int, message: string, recordAttrs: seq<Attr>, encoded: Result<string>)
    returns (fields: map<string, string>, printed: Option<seq<string>>, err: Outcome)
    ensures fields == Fields(recordAttrs + h.attrs)
    ensures |fields| > 0 && encoded.Err? ==> printed == None && err == Fail(encoded.error)
    ensures |fields| == 0 ==> printed == Some(Printed(level, message, "")) && err == Pass
    ensures |fields| > 0 && encoded.Ok? ==> printed == Some(Printed(level, message, encoded.value)) && err == Pass
  {
    fields := map[];
    var i := 0;
    while i < |recordAttrs|
      invariant 0 <= i <= |recordAttrs| && fields == Fields(recordAttrs[..i])
    {
      assert recordAttrs[..i + 1][..i] == recordAttrs[..i];
      fields := fields[recordAttrs[i].key := recordAttrs[i].value];
      i := i + 1;
    }
    assert recordAttrs[..i] == recordAttrs + h.attrs[..0];
    var j := 0;
    while j < |h.attrs|
      invariant 0 <= j <= |h.attrs| && fields == Fields(recordAttrs + h.attrs[..j])
    {
      assert (recordAttrs + h.attrs[..j + 1])[..|recordAttrs| + j] == recordAttrs + h.attrs[..j];
      fields := fields[h.attrs[j].key := h.attrs[j].value];
      j := j + 1;
    }
    assert h.attrs[..j] == h.attrs;
    var text := "";
    if |fields| > 0 {
      if encoded.Err? {
        return fields, None, Fail(encoded.error);
      }
      text := encoded.value;
    }
    printed := Some(Printed(level, message, text));
    err := Pass;
  }

  /** A handler attribute overwrites a record attribute with the same key; the
      record's other attributes are kept. */
  lemma HandlerAttrsWin(recordAttrs: seq<Attr>, handlerAttrs: seq<Attr>, k: string)
    ensures k in Fields(recordAttrs + handlerAttrs) <==> k in Fields(recordAttrs) || k in Fields(handlerAttrs)
    ensures k in Fields(handlerAttrs) ==> Fields(recordAttrs + handlerAttrs)[k] == Fields(handlerAttrs)[k]
    ensures k !in Fields(handlerAttrs) && k in Fields(recordAttrs) ==>
      Fields(recordAttrs + handlerAttrs)[k] == Fields(recordAttrs)[k]
  {
    FieldsConcat(recordAttrs, handlerAttrs);
  }

  /** The handler test: the level is printed as its name and ":" in its colour. */
  lemma HandleLevels()
    ensures Printed(LevelInfo, "Info message", "")[0] == Colorize(Green, "INFO:")
    ensures Printed(LevelError, "Error message", "")[0] == Colorize(Red, "ERROR:")
    ensures Printed(LevelDebug, "Debug message", "")[0] == Colorize(Cyan, "DEBUG:")
    ensures Printed(LevelWarn, "Warn message", "")[0] == Colorize(Yellow, "WARN:")
  {
  }

  /** The WithAttrs test: a record attribute and a handler attribute both reach
      the fields. */
  lemma WithAttrsExample()
    ensures Fields([Attr("key1", "value1")] + WithAttrs(PrettyHandler(0, 0, []), [Attr("globalKey", "globalValue")]).attrs)
      == map["key1" := "value1", "globalKey" := "globalValue"]
  {
    var a, b := Attr("key1", "value1"), Attr("globalKey", "globalValue");
    assert [a] + [b] == [a, b];
    assert [a, b][..1] == [a];
    assert [a][..0] == [];
    assert Fields([a]) == map["key1" := "value1"];
    assert Fields([a, b]) == Fields([a])["globalKey" := "globalValue"];
  }

  /** WithAttrs: a handler with the same embedded handler and logger whose
      attributes are exactly the given ones. */
  function WithAttrs(h: PrettyHandler, attrs: seq<Attr>): (r: PrettyHandler)
    ensures r.inner == h.inner && r.logger == h.logger
    ensures r.attrs == attrs
  {
    PrettyHandler(h.inner, h.logger, attrs)
  }

  /** WithAttrs as written forgets the attributes the handler already had: after
      two calls only the second call's attributes are printed. */
  lemma WithAttrsDropsEarlier()
    ensures var h := WithAttrs(WithAttrs(PrettyHandler(0, 0, []), [Attr("a", "1")]), [Attr("b", "2")]);
      "a" !in Fields([] + h.attrs)
  {
    var h := WithAttrs(WithAttrs(PrettyHandler(0, 0, []), [Attr("a", "1")]), [Attr("b", "2")]);
    assert [] + h.attrs == [Attr("b", "2")];
    assert [Attr("b", "2")][..0] == [];
  }

  /** For every handler and every record, two chained calls of WithAttrs as
      written print the same fields as the second call alone: a key set only by
      the first call is lost. */
  lemma WithAttrsForgetsEarlier(h: PrettyHandler, a: seq<Attr>, b: seq<Attr>, recordAttrs: seq<Attr>, k: string)
    ensures Fields(recordAttrs + WithAttrs(WithAttrs(h, a), b).attrs) == Fields(recordAttrs + b)
    ensures k in Fields(a) && k !in Fields(b) && k !in Fields(recordAttrs) ==>
      k !in Fields(recordAttrs + WithAttrs(WithAttrs(h, a), b).attrs)
  {
    FieldsConcat(recordAttrs, b);
  }

  /** WithAttrs as log/slog's Handler interface asks for it: the receiver's
      attributes followed by the new ones. */
  function WithAttrsKept(h: PrettyHandler, attrs: seq<Attr>): (r: PrettyHandler)
    ensures r.inner == h.inner && r.logger == h.logger
    ensures r.attrs == h.attrs + attrs
  {
    PrettyHandler(h.inner, h.logger, h.attrs + attrs)
  }

  /** With the corrected WithAttrs every earlier attribute is still printed, and
      a later attribute overwrites an earlier one with the same key. */
  lemma WithAttrsKeptKeepsEarlier(h: PrettyHandler, attrs: seq<Attr>, recordAttrs: seq<Attr>)
    ensures Fields(recordAttrs + WithAttrsKept(h, attrs).attrs) == Fields(recordAttrs) + Fields(h.attrs) + Fields(attrs)
  {
    FieldsConcat(recordAttrs, h.attrs + attrs);
    FieldsConcat(h.attrs, attrs);
  }
}
