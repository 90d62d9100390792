/** Strings as the Go standard library sees them: the character classes used by
    the regular expressions and by strings.TrimSpace, decimal formatting
    (strconv.Itoa, fmt's %d), strings.Contains, strings.Split and the
    "text before the first ':'" idiom. */
module Text {

  datatype Option<+T> = None | Some(value: T)

  /** `\d` and `[0-9]` in Go's regexp syntax: ASCII digits only. */
  predicate IsDigit(c: char) {
    '0' <= c <= '9'
  }

  /** `\w` in Go's regexp syntax, the characters that `\b` looks at. */
  predicate IsWordChar(c: char) {
    IsDigit(c) || 'a' <= c <= 'z' || 'A' <= c <= 'Z' || c == '_'
  }

  /** unicode.IsSpace: the Latin-1 spaces and the other Unicode White_Space characters. */
  predicate IsSpace(c: char) {
    || c == '\t' || c == '\n' || c == '\U{0B}' || c == '\U{0C}' || c == '\r' || c == ' '
    || c == '\U{85}' || c == '\U{A0}' || c == '\U{1680}'
    || ('\U{2000}' <= c <= '\U{200A}')
    || c == '\U{2028}' || c == '\U{2029}' || c == '\U{202F}' || c == '\U{205F}' || c == '\U{3000}'
  }

  predicate AllDigits(s: string) {
    forall k :: 0 <= k < |s| ==> IsDigit(s[k])
  }

  /** strings.TrimSpace: s without its leading and trailing white space. */
  function TrimSpace(s: string): string
    decreases |s|
  {
    if s != [] && IsSpace(s[0]) then TrimSpace(s[1..])
    else if s != [] && IsSpace(s[|s| - 1]) then TrimSpace(s[..|s| - 1])
    else s
  }

  /** What strings.TrimSpace promises: s with only its leading and its trailing
      white space removed, so that no white space is left at either end, and s
      itself when s has no white space. */
  lemma {:induction false} TrimSpaceSpec(s: string)
    ensures exists i :: TrimmedAt(s, TrimSpace(s), i)
    ensures TrimSpace(s) == [] || (!IsSpace(TrimSpace(s)[0]) && !IsSpace(TrimSpace(s)[|TrimSpace(s)| - 1]))
    ensures (forall k :: 0 <= k < |s| ==> !IsSpace(s[k])) ==> TrimSpace(s) == s
    decreases |s|
  {
    var r := TrimSpace(s);
    if s != [] && IsSpace(s[0]) {
      TrimSpaceSpec(s[1..]);
      var i :| TrimmedAt(s[1..], r, i);
      OccursAtShift(s, r, i);
      assert TrimmedAt(s, r, i + 1) by {
        forall k | 0 <= k < i + 1
          ensures IsSpace(s[k])
        {
          if k > 0 {
            assert s[k] == s[1..][k - 1];
          }
        }
        forall k | i + 1 + |r| <= k < |s|
          ensures IsSpace(s[k])
        {
          assert s[k] == s[1..][k - 1];
        }
      }
    } else if s != [] && IsSpace(s[|s| - 1]) {
      TrimSpaceSpec(s[..|s| - 1]);
      var i :| TrimmedAt(s[..|s| - 1], r, i);
      assert s[..|s| - 1][i..i + |r|] == s[i..i + |r|];
      assert TrimmedAt(s, r, i) by {
        forall k | i + |r| <= k < |s|
          ensures IsSpace(s[k])
        {
          if k < |s| - 1 {
            assert s[k] == s[..|s| - 1][k];
          }
        }
      }
    } else {
      assert s[0..|r|] == s;
      assert TrimmedAt(s, r, 0);
    }
  }

  /** r is s[i..i + |r|], and everything of s before and after it is white space. */
  ghost predicate TrimmedAt(s: string, r: string, i: int) {
    && OccursAt(s, r, i)
    && (forall k :: 0 <= k < i ==> IsSpace(s[k]))
    && (forall k :: i + |r| <= k < |s| ==> IsSpace(s[k]))
  }

  /** sub occurs in s at position i. */
  ghost predicate OccursAt(s: string, sub: string, i: int) {
    0 <= i && i + |sub| <= |s| && s[i..i + |sub|] == sub
  }

  lemma OccursAtShift(s: string, sub: string, i: int)
    requires s != [] && 0 <= i
    ensures OccursAt(s[1..], sub, i) <==> OccursAt(s, sub, i + 1)
  {
    if 0 <= i && i + |sub| <= |s| - 1 {
      assert s[1..][i..i + |sub|] == s[i + 1..i + 1 + |sub|];
    }
  }

  /** strings.Contains(s, sub). */
  function Contains(s: string, sub: string): (b: bool)
    ensures b <==> exists i :: OccursAt(s, sub, i)
    decreases |s|
  {
    if sub <= s then
      assert OccursAt(s, sub, 0);
      true
    else if s == [] then
      false
    else
      var b := Contains(s[1..], sub);
      assert b <==> exists i :: OccursAt(s, sub, i) by {
        forall i | 0 <= i ensures OccursAt(s[1..], sub, i) <==> OccursAt(s, sub, i + 1) {
          OccursAtShift(s, sub, i);
        }
        if i :| OccursAt(s, sub, i) {
          assert i != 0;
          assert OccursAt(s[1..], sub, i - 1);
        }
      }
      b
  }

  /** strings.Split(s, ":")[0] and s[:strings.IndexByte(s, ':')] when s holds a
      ':': the text before the first separator, or all of s when there is none. */
  function Before(s: string, sep: char): (r: string)
    ensures r <= s && sep !in r
    ensures |r| < |s| ==> s[|r|] == sep
  {
    if s == [] || s[0] == sep then [] else [s[0]] + Before(s[1..], sep)
  }

  /** strings.Split(s, string(sep)). */
  function Split(s: string, sep: char): (parts: seq<string>)
    ensures |parts| >= 1
    ensures forall k :: 0 <= k < |parts| ==> sep !in parts[k]
  {
    var head := Before(s, sep);
    if |head| == |s| then [s] else [head] + Split(s[|head| + 1..], sep)
  }

  /** strings.Join(parts, string(sep)). */
  function Join(parts: seq<string>, sep: char): string
    requires |parts| >= 1
  {
    if |parts| == 1 then parts[0] else parts[0] + [sep] + Join(parts[1..], sep)
  }

  /** Splitting and joining again gives back the text. */
  lemma {:induction false} JoinSplit(s: string, sep: char)
    ensures Join(Split(s, sep), sep) == s
    decreases |s|
  {
    var head := Before(s, sep);
    if |head| < |s| {
      var rest := s[|head| + 1..];
      JoinSplit(rest, sep);
      assert s == head + [sep] + rest;
    }
  }

  /** Splitting parts that hold no separator undoes the join. */
  lemma {:induction false} SplitJoin(parts: seq<string>, sep: char)
    requires |parts| >= 1
    requires forall k :: 0 <= k < |parts| ==> sep !in parts[k]
    ensures Split(Join(parts, sep), sep) == parts
    decreases |parts|
  {
    if |parts| > 1 {
      SplitJoin(parts[1..], sep);
      SplitCons(parts[0], Join(parts[1..], sep), sep);
      assert [parts[0]] + parts[1..] == parts;
    } else {
      BeforeAll(parts[0], sep);
    }
  }

  lemma SplitCons(head: string, tail: string, sep: char)
    requires sep !in head
    ensures Split(head + [sep] + tail, sep) == [head] + Split(tail, sep)
  {
    BeforeOf(head, tail, sep);
    assert (head + [sep] + tail)[|head| + 1..] == tail;
  }

  lemma {:induction false} BeforeAll(s: string, sep: char)
    requires sep !in s
    ensures Before(s, sep) == s
  {
    if s != [] {
      BeforeAll(s[1..], sep);
    }
  }

  lemma {:induction false} BeforeOf(a: string, b: string, sep: char)
    requires sep !in a
    ensures Before(a + [sep] + b, sep) == a
  {
    if a != [] {
      BeforeOf(a[1..], b, sep);
      assert (a + [sep] + b)[1..] == a[1..] + [sep] + b;
    }
  }

  function DigitChar(d: nat): (c: char)
    requires d < 10
    ensures IsDigit(c)
  {
    ['0', '1', '2', '3', '4', '5', '6', '7', '8', '9'][d]
  }

  function DigitValue(c: char): (d: nat)
    requires IsDigit(c)
    ensures d < 10 && DigitChar(d) == c
  {
    (c as int - '0' as int) as nat
  }

  /** The decimal digits of n, most significant first, without leading zeros. */
  function NatToString(n: nat): (s: string)
    ensures |s| >= 1 && AllDigits(s)
    ensures |s| > 1 ==> s[0] != '0'
    decreases n
  {
    if n < 10 then [DigitChar(n)] else NatToString(n / 10) + [DigitChar(n % 10)]
  }

  /** strconv.Itoa(n) and fmt's %d. */
  function Itoa(n: int): string {
    if n < 0 then "-" + NatToString(-n) else NatToString(n)
  }

  /** The value of a string of decimal digits. */
  function ParseNat(s: string): nat
    requires AllDigits(s)
  {
    if s == [] then 0 else ParseNat(s[..|s| - 1]) * 10 + DigitValue(s[|s| - 1])
  }

  /** Formatting a natural number in decimal and reading it back gives the number. */
  lemma {:induction false} ParseNatToString(n: nat)
    ensures ParseNat(NatToString(n)) == n
    decreases n
  {
    if n >= 10 {
      ParseNatToString(n / 10);
      var s := NatToString(n);
      assert s[..|s| - 1] == NatToString(n / 10);
    }
  }

  /** Reading a canonical decimal string and formatting the value again gives the string. */
  lemma {:induction false} NatToStringParse(s: string)
    requires |s| >= 1 && AllDigits(s) && (|s| > 1 ==> s[0] != '0')
    ensures NatToString(ParseNat(s)) == s
    decreases |s|
  {
    if |s| > 1 {
      var init := s[..|s| - 1];
      NatToStringParse(init);
      ParseNatLowerBound(init);
      var v := ParseNat(s);
      assert v / 10 == ParseNat(init) && v % 10 == DigitValue(s[|s| - 1]);
      assert s == init + [s[|s| - 1]];
    } else {
      assert s == [s[0]];
    }
  }

  /** A canonical decimal string of two or more digits stands for at least 10. */
  lemma {:induction false} ParseNatLowerBound(s: string)
    requires |s| >= 1 && AllDigits(s) && s[0] != '0'
    ensures ParseNat(s) >= 1
    decreases |s|
  {
    if |s| > 1 {
      ParseNatLowerBound(s[..|s| - 1]);
    } else {
      assert DigitValue(s[0]) != 0;
    }
  }
}

/** Go error values and the `error`-or-nil results of Go functions. */
module Errors {
  import opened Text

  /** An error built by errors.New or fmt.Errorf without %w (Plain), or by
      fmt.Errorf("prefix%w", cause) (Wrapped). */
  datatype GoError = Plain(text: string) | Wrapped(prefix: string, cause: GoError) {
    /** err.Error() */
    function Message(): string {
      match this
      case Plain(t) => t
      case Wrapped(p, c) => p + c.Message()
    }
  }

  /** A Go `error` result: nil (Pass) or a failure. */
  datatype Outcome = Pass | Fail(error: GoError)

  /** A Go (value, error) result. */
  datatype Result<+T> = Ok(value: T) | Err(error: GoError)
}
