/**
 * The few JavaScript string operations the pages rely on, with the
 * semantics of the ECMAScript built-ins: the `\s` character class (which
 * `String.prototype.trim` shares), `trim`, `toLowerCase`, `includes`,
 * `replace(/\s+/g, "_")`, `Number.prototype.toString` on non-negative
 * integers, `parseInt` on decimal digit strings, and the e-mail pattern
 * `/^\S+@\S+\.\S+$/`.
 */
module JsString {
  import opened Common

  /** The characters matched by `\s` and removed by `trim`: WhiteSpace and LineTerminator. */
  predicate IsWhitespace(c: char) {
    c == '\t' || c == '\n' || c == '\U{B}' || c == '\U{C}' || c == '\r' || c == ' ' ||
    c == '\U{A0}' || c == '\U{1680}' || ('\U{2000}' <= c <= '\U{200A}') ||
    c == '\U{2028}' || c == '\U{2029}' || c == '\U{202F}' || c == '\U{205F}' ||
    c == '\U{3000}' || c == '\U{FEFF}'
  }

  predicate NoWhitespace(s: string) {
    forall i :: 0 <= i < |s| ==> !IsWhitespace(s[i])
  }

  predicate AllWhitespace(s: string) {
    forall i :: 0 <= i < |s| ==> IsWhitespace(s[i])
  }

  /** `trimStart`: drops the leading white space. */
  function TrimStart(s: string): (r: string)
    ensures |r| <= |s| && r == s[|s| - |r|..]
    ensures r == [] || !IsWhitespace(r[0])
    ensures AllWhitespace(s[..|s| - |r|])
  {
    if s == [] || !IsWhitespace(s[0]) then s
    else
      var r := TrimStart(s[1..]);
      assert s[1..][..|s| - 1 - |r|] == s[1..|s| - |r|];
      r
  }

  /** `trimEnd`: drops the trailing white space. */
  function TrimEnd(s: string): (r: string)
    ensures |r| <= |s| && r == s[..|r|]
    ensures r == [] || !IsWhitespace(r[|r| - 1])
    ensures AllWhitespace(s[|r|..])
  {
    if s == [] || !IsWhitespace(s[|s| - 1]) then s
    else
      var r := TrimEnd(s[..|s| - 1]);
      assert s[..|s| - 1][|r|..] == s[|r|..|s| - 1];
      r
  }

  /** `trimStart` leaves nothing exactly when the string is all white space. */
  lemma TrimStartBlank(s: string)
    ensures TrimStart(s) == [] <==> AllWhitespace(s)
  {
    var t := TrimStart(s);
    assert t == [] ==> s[..|s|] == s;
    assert t != [] ==> t[0] == s[|s| - |t|];
  }

  /** On a string that does not start with white space, `trimEnd` leaves nothing only for the empty string. */
  lemma TrimEndBlank(t: string)
    requires t == [] || !IsWhitespace(t[0])
    ensures TrimEnd(t) == [] <==> t == []
  {
    var r := TrimEnd(t);
    assert r == [] ==> t[|r|..] == t;
  }

  /** `String.prototype.trim`: the slice of `s` left once its leading and trailing white space is dropped. */
  function Trim(s: string): (r: string)
    ensures exists a, b :: 0 <= a <= b <= |s| && r == s[a..b] && AllWhitespace(s[..a]) && AllWhitespace(s[b..])
    ensures r == [] || (!IsWhitespace(r[0]) && !IsWhitespace(r[|r| - 1]))
    ensures r == [] <==> AllWhitespace(s)
  {
    var t := TrimStart(s);
    TrimStartBlank(s);
    TrimEndBlank(t);
    var r := TrimEnd(t);
    assert r != [] ==> r[0] == t[0];
    var a, b := |s| - |t|, |s| - |t| + |r|;
    assert s[a..b] == t[..|r|] == r;
    assert s[b..] == t[|r|..];
    r
  }

  /** `toLowerCase` on one character: the ASCII and Latin-1 capitals map to their small letters. */
  function LowerChar(c: char): char {
    if 'A' <= c <= 'Z' || ('\U{C0}' <= c <= '\U{DE}' && c != '\U{D7}') then
      (c as int + 32) as char
    else c
  }

  /** `String.prototype.toLowerCase`. */
  function ToLower(s: string): (r: string)
    ensures |r| == |s|
    ensures forall i :: 0 <= i < |s| ==> r[i] == LowerChar(s[i])
  {
    seq(|s|, i requires 0 <= i < |s| => LowerChar(s[i]))
  }

  /** Lower-casing twice is lower-casing once. */
  lemma ToLowerIdempotent(s: string)
    ensures ToLower(ToLower(s)) == ToLower(s)
  {
    forall i | 0 <= i < |s| ensures LowerChar(LowerChar(s[i])) == LowerChar(s[i]) {
      var c := s[i];
      if 'A' <= c <= 'Z' || ('\U{C0}' <= c <= '\U{DE}' && c != '\U{D7}') {
        assert 'a' <= LowerChar(c) <= 'z' || '\U{E0}' <= LowerChar(c) <= '\U{FE}';
      }
    }
  }

  predicate StartsWith(s: string, prefix: string) {
    |prefix| <= |s| && s[..|prefix|] == prefix
  }

  /** `String.prototype.includes`: `needle` occurs in `s` at some position. */
  predicate Includes(s: string, needle: string)
    decreases |s|
  {
    StartsWith(s, needle) || (s != [] && Includes(s[1..], needle))
  }

  /** `needle` occurs in `s` starting at index `k`. */
  predicate OccursAt(s: string, needle: string, k: int) {
    0 <= k <= |s| - |needle| && s[k..k + |needle|] == needle
  }

  /** `includes` holds exactly when some slice of `s` equals `needle`. */
  lemma {:induction false} IncludesAt(s: string, needle: string)
    ensures Includes(s, needle) <==> exists k :: OccursAt(s, needle, k)
  {
    if s == [] {
      if StartsWith(s, needle) {
        assert OccursAt(s, needle, 0);
      }
      if exists k :: OccursAt(s, needle, k) {
        var k :| OccursAt(s, needle, k);
        assert StartsWith(s, needle);
      }
    } else {
      IncludesAt(s[1..], needle);
      if StartsWith(s, needle) {
        assert OccursAt(s, needle, 0);
      } else if Includes(s[1..], needle) {
        var k :| OccursAt(s[1..], needle, k);
        assert s[1..][k..k + |needle|] == s[k + 1..k + 1 + |needle|];
        assert OccursAt(s, needle, k + 1);
      }
      if exists k :: OccursAt(s, needle, k) {
        var k :| OccursAt(s, needle, k);
        if k > 0 {
          assert s[1..][k - 1..k - 1 + |needle|] == s[k..k + |needle|];
          assert OccursAt(s[1..], needle, k - 1);
        } else {
          assert StartsWith(s, needle);
        }
      }
    }
  }

  /** The empty search term is contained in every string. */
  lemma IncludesEmpty(s: string)
    ensures Includes(s, "")
  {
    assert StartsWith(s, "");
  }

  /** A case-insensitive `includes`, as the search boxes compute it. */
  predicate IncludesIgnoringCase(s: string, needle: string) {
    Includes(ToLower(s), ToLower(needle))
  }

  /** `s.replace(/\s+/g, "_")`: every maximal run of white space becomes one underscore. */
  function ReplaceWhitespaceRuns(s: string): (r: string)
    ensures |r| <= |s|
    ensures NoWhitespace(r)
    decreases |s|
  {
    if s == [] then []
    else if IsWhitespace(s[0]) then
      var rest := ReplaceWhitespaceRuns(TrimStart(s[1..]));
      NoWhitespaceConcat("_", rest);
      "_" + rest
    else
      var rest := ReplaceWhitespaceRuns(s[1..]);
      NoWhitespaceConcat([s[0]], rest);
      [s[0]] + rest
  }

  lemma NoWhitespaceConcat(a: string, b: string)
    requires NoWhitespace(a) && NoWhitespace(b)
    ensures NoWhitespace(a + b)
  {
    forall i | 0 <= i < |a + b| ensures !IsWhitespace((a + b)[i]) {
      if i >= |a| {
        assert (a + b)[i] == b[i - |a|];
      }
    }
  }

  /** A string without white space is left as it is. */
  lemma {:induction false} ReplaceWhitespaceRunsIdentity(s: string)
    requires NoWhitespace(s)
    ensures ReplaceWhitespaceRuns(s) == s
  {
    if s != [] {
      ReplaceWhitespaceRunsIdentity(s[1..]);
    }
  }

  /** A white-space-free prefix is copied unchanged. */
  lemma {:induction false} ReplaceWhitespaceRunsPrefix(a: string, b: string)
    requires NoWhitespace(a)
    ensures ReplaceWhitespaceRuns(a + b) == a + ReplaceWhitespaceRuns(b)
  {
    if a != [] {
      assert (a + b)[0] == a[0] && (a + b)[1..] == a[1..] + b;
      assert !IsWhitespace(a[0]);
      assert NoWhitespace(a[1..]) by {
        forall i | 0 <= i < |a| - 1 ensures !IsWhitespace(a[1..][i]) {
          assert a[1..][i] == a[i + 1];
        }
      }
      ReplaceWhitespaceRunsPrefix(a[1..], b);
      assert a == [a[0]] + a[1..];
    } else {
      assert a + b == b;
    }
  }

  /** `trimStart` removes a whole run of white space in front of a non-blank start. */
  lemma {:induction false} TrimStartRun(w: string, b: string)
    requires AllWhitespace(w)
    requires b == [] || !IsWhitespace(b[0])
    ensures TrimStart(w + b) == b
  {
    if w == [] {
      assert w + b == b;
    } else {
      assert (w + b)[0] == w[0] && (w + b)[1..] == w[1..] + b;
      TrimStartRun(w[1..], b);
    }
  }

  /** A leading run of white space becomes one underscore. */
  lemma ReplaceLeadingRun(w: string, b: string)
    requires |w| > 0 && AllWhitespace(w)
    requires b == [] || !IsWhitespace(b[0])
    ensures ReplaceWhitespaceRuns(w + b) == "_" + ReplaceWhitespaceRuns(b)
  {
    var t := w + b;
    assert t[0] == w[0] && t[1..] == w[1..] + b;
    assert AllWhitespace(w[1..]) by {
      forall i | 0 <= i < |w| - 1 ensures IsWhitespace(w[1..][i]) {
        assert w[1..][i] == w[i + 1];
      }
    }
    TrimStartRun(w[1..], b);
  }

  /** One run of white space between a blank-free word and the rest becomes exactly one underscore. */
  lemma ReplaceWhitespaceRun(a: string, w: string, b: string)
    requires NoWhitespace(a) && |w| > 0 && AllWhitespace(w)
    requires b == [] || !IsWhitespace(b[0])
    ensures ReplaceWhitespaceRuns(a + w + b) == a + "_" + ReplaceWhitespaceRuns(b)
  {
    var tail := ReplaceWhitespaceRuns(b);
    assert a + w + b == a + (w + b);
    ReplaceWhitespaceRunsPrefix(a, w + b);
    ReplaceLeadingRun(w, b);
    assert a + ("_" + tail) == a + "_" + tail;
  }

  function DigitChar(d: nat): char
    requires d < 10
  {
    ('0' as int + d) as char
  }

  predicate IsDigit(c: char) {
    '0' <= c <= '9'
  }

  predicate AllDigits(s: string) {
    forall i :: 0 <= i < |s| ==> IsDigit(s[i])
  }

  /** `Number.prototype.toString()` for a non-negative integer: its decimal digits. */
  function NumberToString(n: nat): (r: string)
    ensures |r| >= 1 && AllDigits(r)
  {
    if n < 10 then [DigitChar(n)] else NumberToString(n / 10) + [DigitChar(n % 10)]
  }

  /** The value of a string of decimal digits. */
  function DigitsValue(s: string): nat
    requires AllDigits(s)
  {
    if s == [] then 0 else 10 * DigitsValue(s[..|s| - 1]) + (s[|s| - 1] as int - '0' as int)
  }

  /** The length of the longest prefix of `s` made of decimal digits. */
  function LeadingDigits(s: string): (k: nat)
    ensures k <= |s| && AllDigits(s[..k])
    ensures k < |s| ==> !IsDigit(s[k])
  {
    if s == [] || !IsDigit(s[0]) then 0
    else
      var k := 1 + LeadingDigits(s[1..]);
      assert s[..k] == [s[0]] + s[1..][..k - 1];
      k
  }

  /** `parseInt(s)` on a string that starts with decimal digits; `None` stands for `NaN`. */
  function ParseInt(s: string): (r: Option<nat>)
    ensures r.None? <==> s == [] || !IsDigit(s[0])
    ensures AllDigits(s) && s != [] ==> r == Some(DigitsValue(s))
  {
    var k := LeadingDigits(s);
    assert AllDigits(s) ==> k == |s| && s[..k] == s;
    if k == 0 then None else Some(DigitsValue(s[..k]))
  }

  lemma {:induction false} DigitsValueOfNumber(n: nat)
    ensures DigitsValue(NumberToString(n)) == n
  {
    var r := NumberToString(n);
    if n >= 10 {
      DigitsValueOfNumber(n / 10);
      assert r[..|r| - 1] == NumberToString(n / 10);
    }
  }

  /** Parsing the decimal text of a number gives the number back. */
  lemma ParseIntNumberToString(n: nat)
    ensures ParseInt(NumberToString(n)) == Some(n)
  {
    var r := NumberToString(n);
    var k := LeadingDigits(r);
    assert k == |r|;
    assert r[..k] == r;
    DigitsValueOfNumber(n);
  }

  /** Distinct numbers have distinct decimal texts. */
  lemma NumberToStringInjective(a: nat, b: nat)
    requires NumberToString(a) == NumberToString(b)
    ensures a == b
  {
    ParseIntNumberToString(a);
    ParseIntNumberToString(b);
  }

  // ---------------------------------------------------------------------
  // The e-mail pattern /^\S+@\S+\.\S+$/ as a small backtracking matcher.

  datatype CharClass = NonWhitespace | Literal(c: char)

  datatype Term = Once(cls: CharClass) | OneOrMore(cls: CharClass)

  predicate ClassMatches(cls: CharClass, c: char) {
    match cls
    case NonWhitespace => !IsWhitespace(c)
    case Literal(d) => c == d
  }

  /** The whole of `s` matches the pattern `p` (anchored at both ends). */
  predicate Matches(p: seq<Term>, s: string)
    decreases |p| + |s|
  {
    if p == [] then s == []
    else if s == [] || !ClassMatches(p[0].cls, s[0]) then false
    else match p[0]
      case Once(_) => Matches(p[1..], s[1..])
      case OneOrMore(_) => Matches(p[1..], s[1..]) || Matches(p, s[1..])
  }

  const EmailPattern: seq<Term> :=
    [OneOrMore(NonWhitespace), Once(Literal('@')), OneOrMore(NonWhitespace),
     Once(Literal('.')), OneOrMore(NonWhitespace)]

  /** `/^\S+@\S+\.\S+$/.test(s)`. */
  predicate IsEmail(s: string) {
    Matches(EmailPattern, s)
  }

  /** Index `i` holds an `@` with at least one character before it. */
  predicate AtSignAt(s: string, i: int) {
    0 < i < |s| && s[i] == '@'
  }

  /** Index `j` holds a `.` with at least one character between it and the `@` at `i`, and one after it. */
  predicate DotAfter(s: string, i: int, j: int) {
    0 <= i && i + 1 < j < |s| - 1 && s[j] == '.'
  }

  /** The pattern read off as positions: no white space, an `@` after the first character, a `.` after that with characters on both sides. */
  ghost predicate EmailShape(s: string) {
    NoWhitespace(s) && exists i, j :: AtSignAt(s, i) && DotAfter(s, i, j)
  }

  lemma OnceLiteral(c: char, rest: seq<Term>, s: string)
    ensures Matches([Once(Literal(c))] + rest, s) <==> |s| > 0 && s[0] == c && Matches(rest, s[1..])
  {
    var p := [Once(Literal(c))] + rest;
    assert p[0] == Once(Literal(c)) && p[1..] == rest;
  }

  lemma {:induction false} OneOrMoreIntro(rest: seq<Term>, s: string, k: nat)
    requires 1 <= k <= |s| && NoWhitespace(s[..k]) && Matches(rest, s[k..])
    ensures Matches([OneOrMore(NonWhitespace)] + rest, s)
  {
    var p := [OneOrMore(NonWhitespace)] + rest;
    assert p[0] == OneOrMore(NonWhitespace) && p[1..] == rest;
    assert s[..k][0] == s[0];
    if k > 1 {
      var w := s[1..][..k - 1];
      forall i | 0 <= i < |w| ensures !IsWhitespace(w[i]) {
        assert w[i] == s[..k][i + 1];
      }
      assert s[1..][k - 1..] == s[k..];
      OneOrMoreIntro(rest, s[1..], k - 1);
    }
  }

  lemma {:induction false} OneOrMoreElim(rest: seq<Term>, s: string) returns (k: nat)
    requires Matches([OneOrMore(NonWhitespace)] + rest, s)
    ensures 1 <= k <= |s| && NoWhitespace(s[..k]) && Matches(rest, s[k..])
    decreases |s|
  {
    var p := [OneOrMore(NonWhitespace)] + rest;
    assert p[0] == OneOrMore(NonWhitespace) && p[1..] == rest;
    if Matches(rest, s[1..]) {
      k := 1;
    } else {
      var k' := OneOrMoreElim(rest, s[1..]);
      k := k' + 1;
      forall i | 0 <= i < k ensures !IsWhitespace(s[..k][i]) {
        if i > 0 { assert s[..k][i] == s[1..][..k'][i - 1]; }
      }
      assert s[k..] == s[1..][k'..];
    }
  }

  /** The tail of the e-mail pattern after its first `\S+`. */
  const AfterLocalPart: seq<Term> := EmailPattern[1..]
  /** The tail of the e-mail pattern after the domain's `\S+`. */
  const AfterDomain: seq<Term> := EmailPattern[3..]

  lemma EmailPatternParts()
    ensures EmailPattern == [OneOrMore(NonWhitespace)] + AfterLocalPart
    ensures AfterLocalPart == [Once(Literal('@'))] + ([OneOrMore(NonWhitespace)] + AfterDomain)
    ensures AfterDomain == [Once(Literal('.'))] + ([OneOrMore(NonWhitespace)] + [])
  {
  }

  /** Every string the regular expression accepts has the shape. */
  lemma EmailMatchHasShape(s: string)
    requires IsEmail(s)
    ensures EmailShape(s)
  {
    EmailPatternParts();
    var i := OneOrMoreElim(AfterLocalPart, s);
    OnceLiteral('@', [OneOrMore(NonWhitespace)] + AfterDomain, s[i..]);
    var t := s[i + 1..];
    assert s[i..][1..] == t;
    var m := OneOrMoreElim(AfterDomain, t);
    var j := i + 1 + m;
    assert t[m..] == s[j..];
    OnceLiteral('.', [OneOrMore(NonWhitespace)] + [], s[j..]);
    var u := s[j + 1..];
    assert s[j..][1..] == u;
    var n := OneOrMoreElim([], u);
    assert n == |u|;
    forall x | 0 <= x < |s| ensures !IsWhitespace(s[x]) {
      if x < i {
        assert s[x] == s[..i][x];
      } else if x == i || x == j {
      } else if x < j {
        assert s[x] == t[..m][x - i - 1];
      } else {
        assert s[x] == u[..n][x - j - 1];
      }
    }
    assert AtSignAt(s, i) && DotAfter(s, i, j);
  }

  /** Every string of that shape is accepted by the regular expression. */
  lemma ShapeMatchesEmail(s: string)
    requires EmailShape(s)
    ensures IsEmail(s)
  {
    EmailPatternParts();
    var i, j :| AtSignAt(s, i) && DotAfter(s, i, j);
    var u := s[j + 1..];
    assert u[|u|..] == [];
    forall x | 0 <= x < |u| ensures !IsWhitespace(u[..|u|][x]) {
      assert u[..|u|][x] == s[j + 1 + x];
    }
    OneOrMoreIntro([], u, |u|);
    assert s[j..][1..] == u;
    OnceLiteral('.', [OneOrMore(NonWhitespace)] + [], s[j..]);
    var t := s[i + 1..];
    assert t[j - i - 1..] == s[j..];
    var w := t[..j - i - 1];
    forall x | 0 <= x < |w| ensures !IsWhitespace(w[x]) {
      assert w[x] == s[i + 1 + x];
    }
    OneOrMoreIntro(AfterDomain, t, j - i - 1);
    assert s[i..][1..] == t;
    OnceLiteral('@', [OneOrMore(NonWhitespace)] + AfterDomain, s[i..]);
    forall x | 0 <= x < i ensures !IsWhitespace(s[..i][x]) {
      assert s[..i][x] == s[x];
    }
    OneOrMoreIntro(AfterLocalPart, s, i);
  }

  /** The regular expression accepts exactly the strings of that shape. */
  lemma EmailPatternShape(s: string)
    ensures IsEmail(s) <==> EmailShape(s)
  {
    if IsEmail(s) { EmailMatchHasShape(s); }
    if EmailShape(s) { ShapeMatchesEmail(s); }
  }
}
