/** The address extractor of internal/proxy/checker.go: the fixed pattern
    `\b\d{1,3}\.\d{1,3}\.\d{1,3}\.\d{1,3}:\d{1,5}\b` applied with Go's
    leftmost FindString. The pattern is written out as a token sequence with a
    declarative matching relation (the reference), and the extractor is a
    deterministic scanner proved to agree with it. */
module Address {
  import opened Text

  /** The elements the pattern is built from. */
  datatype Token = WordBoundary | Lit(c: char) | Digits(lo: nat, hi: nat)

  /** The pattern of internal/proxy/checker.go:20, token by token. */
  const Pattern: seq<Token> := [
    WordBoundary,
    Digits(1, 3), Lit('.'), Digits(1, 3), Lit('.'), Digits(1, 3), Lit('.'), Digits(1, 3),
    Lit(':'), Digits(1, 5),
    WordBoundary
  ]

  /** `\b` holds at position i of s: exactly one of the characters around i is a word character. */
  predicate Boundary(s: string, i: nat)
    requires i <= |s|
  {
    (i > 0 && IsWordChar(s[i - 1])) != (i < |s| && IsWordChar(s[i]))
  }

  ghost predicate DigitsBetween(s: string, i: nat, k: nat)
    requires i <= k <= |s|
  {
    forall m :: i <= m < k ==> IsDigit(s[m])
  }

  /** Tokens p[n..] match exactly s[i..j]; `\b` looks at the characters around
      the position in the whole of s, as a regular expression does. */
  ghost predicate Matches(p: seq<Token>, n: nat, s: string, i: nat, j: nat)
    requires n <= |p| && i <= j <= |s|
    decreases |p| - n
  {
    if n == |p| then i == j
    else match p[n]
      case WordBoundary => Boundary(s, i) && Matches(p, n + 1, s, i, j)
      case Lit(c) => i < j && s[i] == c && Matches(p, n + 1, s, i + 1, j)
      case Digits(lo, hi) =>
        exists k :: i + lo <= k <= i + hi && k <= j && DigitsBetween(s, i, k) && Matches(p, n + 1, s, k, j)
  }

  /** The pattern matches exactly s[i..j]. */
  ghost predicate MatchesAt(s: string, i: nat, j: nat)
    requires i <= j <= |s|
  {
    Matches(Pattern, 0, s, i, j)
  }

  /** The length of the run of digits of s that starts at position i. */
  function DigitRun(s: string, i: nat): (n: nat)
    requires i <= |s|
    ensures i + n <= |s|
    ensures forall m :: i <= m < i + n ==> IsDigit(s[m])
    ensures i + n == |s| || !IsDigit(s[i + n])
    decreases |s| - i
  {
    if i < |s| && IsDigit(s[i]) then 1 + DigitRun(s, i + 1) else 0
  }

  /** Every digit group needs at least one digit and is followed by `\b` or by
      a character that is not a digit; the pattern of checker.go is of this form. */
  ghost predicate WellFormed(p: seq<Token>) {
    forall m :: 0 <= m < |p| && p[m].Digits? ==>
      p[m].lo >= 1 && m + 1 < |p| && (p[m + 1].WordBoundary? || (p[m + 1].Lit? && !IsDigit(p[m + 1].c)))
  }

  /** The scanner: it matches p[n..] from position i, each digit group taking the
      whole run of digits in front of it, and gives the end of the match. */
  function Scan(p: seq<Token>, n: nat, s: string, i: nat): (r: Option<nat>)
    requires n <= |p| && i <= |s|
    ensures r.Some? ==> i <= r.value <= |s|
    decreases |p| - n
  {
    if n == |p| then Some(i)
    else match p[n]
      case WordBoundary => if Boundary(s, i) then Scan(p, n + 1, s, i) else None
      case Lit(c) => if i < |s| && s[i] == c then Scan(p, n + 1, s, i + 1) else None
      case Digits(lo, hi) =>
        var r := DigitRun(s, i);
        if lo <= r <= hi then Scan(p, n + 1, s, i + r) else None
  }

  /** Where the match of the address pattern starting at i ends, if there is one. */
  function MatchAt(s: string, i: nat): (r: Option<nat>)
    requires i <= |s|
    ensures r.Some? ==> i <= r.value <= |s|
  {
    Scan(Pattern, 0, s, i)
  }

  lemma PatternWellFormed()
    ensures WellFormed(Pattern)
  {
  }

  /** After a digit group that started at i, the next token cannot match from
      inside the run of digits: the greedy choice is the only one. */
  lemma {:induction false} NoMatchInsideRun(p: seq<Token>, n: nat, s: string, i: nat, k: nat, j: nat)
    requires WellFormed(p) && n + 1 < |p| && p[n].Digits?
    requires i + 1 <= k <= j <= |s| && k < i + DigitRun(s, i)
    ensures !Matches(p, n + 1, s, k, j)
  {
    assert IsDigit(s[k]) && IsDigit(s[k - 1]);
  }

  /** The scanner is exact for well-formed patterns: it reports the end j precisely
      when p[n..] matches s[i..j]. */
  lemma {:induction false} ScanExact(p: seq<Token>, n: nat, s: string, i: nat, j: nat)
    requires WellFormed(p) && n <= |p| && i <= j <= |s|
    ensures Scan(p, n, s, i) == Some(j) <==> Matches(p, n, s, i, j)
    decreases |p| - n
  {
    if n < |p| {
      match p[n]
      case WordBoundary =>
        ScanExact(p, n + 1, s, i, j);
      case Lit(c) =>
        if i < j && s[i] == c {
          ScanExact(p, n + 1, s, i + 1, j);
        }
      case Digits(lo, hi) =>
        var r := DigitRun(s, i);
        if Matches(p, n, s, i, j) {
          var k :| i + lo <= k <= i + hi && k <= j && DigitsBetween(s, i, k) && Matches(p, n + 1, s, k, j);
          assert k <= i + r;
          if k < i + r {
            NoMatchInsideRun(p, n, s, i, k, j);
          }
          assert k == i + r;
          ScanExact(p, n + 1, s, k, j);
        }
        if Scan(p, n, s, i) == Some(j) {
          assert lo <= r <= hi && i + r <= j;
          ScanExact(p, n + 1, s, i + r, j);
          assert DigitsBetween(s, i, i + r);
        }
    }
  }

  /** The extractor is exact: it reports the end j of a match at i precisely
      when the address pattern matches s[i..j]. */
  lemma MatchAtExact(s: string, i: nat, j: nat)
    requires i <= j <= |s|
    ensures MatchAt(s, i) == Some(j) <==> MatchesAt(s, i, j)
  {
    PatternWellFormed();
    ScanExact(Pattern, 0, s, i, j);
  }

  /** The pattern never matches at two different lengths from one start. */
  lemma MatchUnique(s: string, i: nat, j: nat, j': nat)
    requires i <= j <= |s| && i <= j' <= |s|
    requires MatchesAt(s, i, j) && MatchesAt(s, i, j')
    ensures j == j'
  {
    MatchAtExact(s, i, j);
    MatchAtExact(s, i, j');
  }

  /** The leftmost match that starts at or after `from`, as (start, end). */
  function FindFrom(s: string, from: nat): (r: Option<(nat, nat)>)
    requires from <= |s|
    ensures r.Some? ==> from <= r.value.0 <= r.value.1 <= |s|
    decreases |s| - from
  {
    var here := MatchAt(s, from);
    if here.Some? then Some((from, here.value))
    else if from == |s| then None
    else FindFrom(s, from + 1)
  }

  /** FindFrom reports where the scanner first succeeds from `from` on, and
      the end it gives there; when it reports nothing, it succeeds nowhere. */
  lemma {:induction false} FindFromScans(s: string, from: nat)
    requires from <= |s|
    ensures FindFrom(s, from).Some? ==> MatchAt(s, FindFrom(s, from).value.0) == Some(FindFrom(s, from).value.1)
    ensures FindFrom(s, from).Some? ==> forall i :: from <= i < FindFrom(s, from).value.0 ==> MatchAt(s, i).None?
    ensures FindFrom(s, from).None? ==> forall i :: from <= i <= |s| ==> MatchAt(s, i).None?
    decreases |s| - from
  {
    if MatchAt(s, from).None? && from < |s| {
      FindFromScans(s, from + 1);
    }
  }

  /** Where the scanner fails, the pattern matches nothing. */
  lemma NoMatchWhereScanFails(s: string, lo: nat, hi: nat)
    requires lo <= hi <= |s| + 1
    requires forall i :: lo <= i < hi ==> MatchAt(s, i).None?
    ensures forall i, j :: lo <= i < hi && i <= j <= |s| ==> !MatchesAt(s, i, j)
  {
    forall i, j | lo <= i < hi && i <= j <= |s| ensures !MatchesAt(s, i, j) {
      MatchAtExact(s, i, j);
    }
  }

  /** regexp FindString with the pattern: the leftmost match, or "" when there is none. */
  function FindString(s: string): string {
    match FindFrom(s, 0)
    case Some((i, j)) => s[i..j]
    case None => ""
  }

  /** What FindString promises: "" exactly when nothing in s matches; otherwise a
      match of the pattern taken from s, and no match starts further left. */
  lemma FindStringSpec(s: string)
    ensures FindString(s) == "" <==> forall i, j :: 0 <= i <= j <= |s| ==> !MatchesAt(s, i, j)
    ensures FindString(s) != "" ==>
      exists i, j :: 0 <= i <= j <= |s| && MatchesAt(s, i, j) && FindString(s) == s[i..j]
        && forall i', j' :: 0 <= i' < i && i' <= j' <= |s| ==> !MatchesAt(s, i', j')
  {
    FindFromScans(s, 0);
    match FindFrom(s, 0)
    case Some((i, j)) =>
      NoMatchWhereScanFails(s, 0, i);
      MatchAtExact(s, i, j);
      MatchBoundaries(s, i, j);
    case None =>
      NoMatchWhereScanFails(s, 0, |s| + 1);
  }

  /** The fewest characters that p[n..] can match. */
  function MinLength(p: seq<Token>, n: nat): nat
    requires n <= |p|
    decreases |p| - n
  {
    if n == |p| then 0
    else match p[n]
      case WordBoundary => MinLength(p, n + 1)
      case Lit(_) => 1 + MinLength(p, n + 1)
      case Digits(lo, _) => lo + MinLength(p, n + 1)
  }

  lemma {:induction false} ScanLength(p: seq<Token>, n: nat, s: string, i: nat)
    requires n <= |p| && i <= |s| && Scan(p, n, s, i).Some?
    ensures Scan(p, n, s, i).value >= i + MinLength(p, n)
    decreases |p| - n
  {
    if n < |p| {
      match p[n]
      case WordBoundary => ScanLength(p, n + 1, s, i);
      case Lit(_) => ScanLength(p, n + 1, s, i + 1);
      case Digits(_, _) => ScanLength(p, n + 1, s, i + DigitRun(s, i));
    }
  }

  /** A pattern that closes with a digit group and `\b` ends its match on a digit
      that no word character follows. */
  lemma {:induction false} ScanEnd(p: seq<Token>, n: nat, s: string, i: nat)
    requires WellFormed(p) && |p| >= 2 && n <= |p| - 2 && i <= |s|
    requires p[|p| - 2].Digits? && p[|p| - 1] == WordBoundary
    requires Scan(p, n, s, i).Some?
    ensures var j := Scan(p, n, s, i).value; j > 0 && IsDigit(s[j - 1]) && (j == |s| || !IsWordChar(s[j]))
    decreases |p| - n
  {
    if n < |p| - 2 {
      match p[n]
      case WordBoundary => ScanEnd(p, n + 1, s, i);
      case Lit(_) => ScanEnd(p, n + 1, s, i + 1);
      case Digits(_, _) => ScanEnd(p, n + 1, s, i + DigitRun(s, i));
    } else {
      var r := DigitRun(s, i);
      assert Scan(p, n + 1, s, i + r) == Scan(p, n + 2, s, i + r) == Some(i + r);
      assert IsDigit(s[i + r - 1]);
    }
  }

  /** A match neither starts nor ends inside a longer run of word characters: it
      begins on a digit that follows no word character and ends on a digit that
      no word character follows, and it is at least nine characters long. */
  lemma MatchBoundaries(s: string, i: nat, j: nat)
    requires i <= j <= |s| && MatchesAt(s, i, j)
    ensures j >= i + 9
    ensures IsDigit(s[i]) && (i == 0 || !IsWordChar(s[i - 1]))
    ensures IsDigit(s[j - 1]) && (j == |s| || !IsWordChar(s[j]))
  {
    MatchAtExact(s, i, j);
    PatternWellFormed();
    ScanLength(Pattern, 0, s, i);
    assert MinLength(Pattern, 0) == 9;
    ScanEnd(Pattern, 0, s, i);
    assert Scan(Pattern, 0, s, i) == Scan(Pattern, 1, s, i);
    assert DigitRun(s, i) >= 1;
  }

  /** Octet values are not range-checked: the largest digit groups are accepted. */
  lemma AcceptsUncheckedOctets()
    ensures FindString("999.999.999.999:99999") == "999.999.999.999:99999"
  {
    var s := "999.999.999.999:99999";
    UncheckedMatch(s);
    assert s[0..21] == s;
  }

  lemma UncheckedMatch(s: string)
    requires s == "999.999.999.999:99999"
    ensures MatchAt(s, 0) == Some(21)
  {
    UncheckedHead(s);
    assert Boundary(s, 0);
  }

  lemma UncheckedHead(s: string)
    requires s == "999.999.999.999:99999"
    ensures Scan(Pattern, 1, s, 0) == Some(21)
  {
    UncheckedMiddle(s);
    RunOf(s, 0, 3);
    assert Scan(Pattern, 2, s, 3) == Some(21);
  }

  lemma UncheckedMiddle(s: string)
    requires s == "999.999.999.999:99999"
    ensures Scan(Pattern, 3, s, 4) == Some(21)
  {
    UncheckedTail(s);
    RunOf(s, 4, 3);
    assert Scan(Pattern, 4, s, 7) == Some(21);
  }

  lemma UncheckedTail(s: string)
    requires s == "999.999.999.999:99999"
    ensures Scan(Pattern, 5, s, 8) == Some(21)
  {
    RunOf(s, 16, 5);
    RunOf(s, 12, 3);
    RunOf(s, 8, 3);
    assert Scan(Pattern, 10, s, 21) == Some(21);
    assert Scan(Pattern, 9, s, 16) == Some(21);
    assert Scan(Pattern, 8, s, 15) == Some(21);
    assert Scan(Pattern, 7, s, 12) == Some(21);
    assert Scan(Pattern, 6, s, 11) == Some(21);
  }

  /** A run of exactly n digits at i. */
  lemma {:induction false} RunOf(s: string, i: nat, n: nat)
    requires i + n <= |s| && (forall m :: i <= m < i + n ==> IsDigit(s[m]))
    requires i + n == |s| || !IsDigit(s[i + n])
    ensures DigitRun(s, i) == n
    decreases n
  {
    if n > 0 {
      RunOf(s, i + 1, n - 1);
    }
  }

  /** The pattern does not match from a digit that follows a letter. */
  lemma NoMatchAfterLetter(j: nat)
    requires 1 <= j <= 10
    ensures !MatchesAt("a1.2.3.4:5", 1, j)
  {
    MatchAtExact("a1.2.3.4:5", 1, j);
  }

  /** A four-digit first group is not shortened to three. */
  lemma NoMatchInLongGroup(j: nat)
    requires j <= 13
    ensures !MatchesAt("1234.1.1.1:80", 0, j)
  {
    var s := "1234.1.1.1:80";
    assert DigitRun(s, 0) == 4;
    assert Scan(Pattern, 0, s, 0) == Scan(Pattern, 1, s, 0) == None;
    MatchAtExact(s, 0, j);
  }

  /** A six-digit port is not shortened to five. */
  lemma NoMatchWithLongPort(j: nat)
    requires j <= 14
    ensures !MatchesAt("1.1.1.1:123456", 0, j)
  {
    var s := "1.1.1.1:123456";
    assert DigitRun(s, 8) == 6;
    assert Scan(Pattern, 9, s, 8) == None;
    assert Scan(Pattern, 8, s, 7) == None;
    assert DigitRun(s, 6) == 1;
    assert Scan(Pattern, 7, s, 6) == None;
    assert Scan(Pattern, 6, s, 5) == None;
    assert DigitRun(s, 4) == 1;
    assert Scan(Pattern, 5, s, 4) == None;
    assert Scan(Pattern, 4, s, 3) == None;
    assert DigitRun(s, 2) == 1;
    assert Scan(Pattern, 3, s, 2) == None;
    assert Scan(Pattern, 2, s, 1) == None;
    assert DigitRun(s, 0) == 1;
    assert Scan(Pattern, 1, s, 0) == None;
    MatchAtExact(s, 0, j);
  }
}
