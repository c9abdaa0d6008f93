/**
 * The domain validator of the site requests (backend/app/schemas/site.py): the value
 * must match `^(?:[a-zA-Z0-9-]+\.)+[a-zA-Z]{2,}$` under Python's `re.match`, where
 * `$` also matches just before one final newline.
 */
module SiteSchema {
  import opened Wrappers

  predicate IsLetter(c: char) {
    'a' <= c <= 'z' || 'A' <= c <= 'Z'
  }

  /** `[a-zA-Z0-9-]`. */
  predicate IsLabelChar(c: char) {
    IsLetter(c) || '0' <= c <= '9' || c == '-'
  }

  /** `[a-zA-Z0-9-]+`. */
  predicate IsLabel(s: string) {
    |s| >= 1 && forall i :: 0 <= i < |s| ==> IsLabelChar(s[i])
  }

  /** `[a-zA-Z]{2,}`. */
  predicate IsTld(s: string) {
    |s| >= 2 && forall i :: 0 <= i < |s| ==> IsLetter(s[i])
  }

  /** `(?:[a-zA-Z0-9-]+\.)+`, read as the regular expression is built: a label and a dot, then optionally more. */
  predicate DottedLabels(h: string)
    decreases |h|
  {
    exists i :: 0 < i < |h| && h[i] == '.' && IsLabel(h[..i]) && (i == |h| - 1 || DottedLabels(h[i + 1..]))
  }

  /** The whole pattern between `^` and `$`. */
  predicate FullMatch(s: string) {
    exists k :: 0 < k < |s| && DottedLabels(s[..k]) && IsTld(s[k..])
  }

  /** `re.match(pattern, v)`: the pattern matches all of `v`, or all of `v` but one final newline. */
  predicate PatternMatches(v: string) {
    FullMatch(v) || (|v| > 0 && v[|v| - 1] == '\n' && FullMatch(v[..|v| - 1]))
  }

  /** `validate_domain`: an accepted value comes back unchanged, any other is refused. */
  function ValidateDomain(v: string): (r: Result<string>)
    ensures r.Ok? ==> r.value == v && PatternMatches(v)
    ensures r.Err? ==> r.message == "Invalid domain format" && !PatternMatches(v)
  {
    if PatternMatches(v) then Ok(v) else Err("Invalid domain format")
  }

  /**
   * The same language described by its shape: no leading dot, a final dot, only label
   * characters and dots, and never two dots in a row.
   */
  predicate DotShape(h: string) {
    && |h| >= 2 && h[0] != '.' && h[|h| - 1] == '.'
    && (forall i :: 0 <= i < |h| ==> h[i] == '.' || IsLabelChar(h[i]))
    && (forall i :: 0 < i < |h| && h[i] == '.' ==> h[i - 1] != '.')
  }

  /** The index of the first dot at or after `from`. */
  function FirstDot(h: string, from: nat): (r: nat)
    requires from < |h| && h[|h| - 1] == '.'
    ensures from <= r < |h| && h[r] == '.'
    ensures forall j :: from <= j < r ==> h[j] != '.'
    decreases |h| - from
  {
    if h[from] == '.' then from else FirstDot(h, from + 1)
  }

  /** A label, a dot, and then a dotted string: the whole has the shape. */
  lemma ShapeCons(h: string, i: nat)
    requires 0 < i < |h| - 1 && h[i] == '.' && IsLabel(h[..i]) && DotShape(h[i + 1..])
    ensures DotShape(h)
  {
    var t := h[i + 1..];
    assert forall j :: 0 <= j < i ==> h[j] == h[..i][j];
    assert forall j :: i < j < |h| ==> h[j] == t[j - i - 1];
  }

  /** A label and a dot alone have the shape. */
  lemma ShapeSingle(h: string)
    requires |h| >= 2 && h[|h| - 1] == '.' && IsLabel(h[..|h| - 1])
    ensures DotShape(h)
  {
    assert forall j :: 0 <= j < |h| - 1 ==> h[j] == h[..|h| - 1][j];
  }

  /** After the first dot of a dotted string with more to come, the rest keeps the shape. */
  lemma ShapeTail(h: string, i: nat)
    requires DotShape(h) && i < |h| - 1 && h[i] == '.'
    ensures DotShape(h[i + 1..])
  {
    var t := h[i + 1..];
    assert forall j :: 0 <= j < |t| ==> t[j] == h[i + 1 + j];
    assert t[0] != '.';
    forall j | 0 < j < |t| && t[j] == '.'
      ensures t[j - 1] != '.'
    {
      assert h[i + 1 + j] == '.';
    }
  }

  /** The regular expression's own reading and the shape describe the same strings. */
  lemma DottedLabelsIff(h: string)
    ensures DottedLabels(h) <==> DotShape(h)
  {
    if DottedLabels(h) {
      DottedLabelsHaveShape(h);
    }
    if DotShape(h) {
      ShapeIsDottedLabels(h);
    }
  }

  lemma {:induction false} DottedLabelsHaveShape(h: string)
    requires DottedLabels(h)
    ensures DotShape(h)
    decreases |h|
  {
    var i :| 0 < i < |h| && h[i] == '.' && IsLabel(h[..i]) && (i == |h| - 1 || DottedLabels(h[i + 1..]));
    if i == |h| - 1 {
      ShapeSingle(h);
    } else {
      DottedLabelsHaveShape(h[i + 1..]);
      ShapeCons(h, i);
    }
  }

  lemma {:induction false} ShapeIsDottedLabels(h: string)
    requires DotShape(h)
    ensures DottedLabels(h)
    decreases |h|
  {
    var i := FirstDot(h, 0);
    assert i > 0;
    assert IsLabel(h[..i]) by {
      assert forall j :: 0 <= j < i ==> h[..i][j] == h[j];
    }
    if i < |h| - 1 {
      ShapeTail(h, i);
      ShapeIsDottedLabels(h[i + 1..]);
    }
  }

  /** What every matching value looks like. */
  lemma FullMatchShape(s: string)
    requires FullMatch(s)
    ensures s[0] != '.' && IsLetter(s[|s| - 1]) && IsLetter(s[|s| - 2])
    ensures exists i :: 0 < i < |s| - 2 && s[i] == '.'
    ensures forall i :: 0 <= i < |s| ==> s[i] == '.' || IsLabelChar(s[i])
    ensures forall i :: 0 < i < |s| && s[i] == '.' ==> s[i - 1] != '.'
  {
    var k :| 0 < k < |s| && DottedLabels(s[..k]) && IsTld(s[k..]);
    var h, t := s[..k], s[k..];
    DottedLabelsHaveShape(h);
    assert forall i :: 0 <= i < k ==> s[i] == h[i];
    assert forall i :: k <= i < |s| ==> s[i] == t[i - k];
    assert s[k - 1] == '.';
  }

  /** A single-label name such as "localhost" is refused. */
  lemma SingleLabelRejected(s: string)
    requires forall i :: 0 <= i < |s| ==> s[i] != '.'
    ensures !PatternMatches(s)
  {
    if FullMatch(s) {
      FullMatchShape(s);
    }
    if s != [] && FullMatch(s[..|s| - 1]) {
      FullMatchShape(s[..|s| - 1]);
    }
  }

  /** A value ending in a digit, an IPv4 literal among them, is refused. */
  lemma DigitEndRejected(s: string)
    requires s != [] && '0' <= s[|s| - 1] <= '9'
    ensures !PatternMatches(s)
  {
    if FullMatch(s) {
      FullMatchShape(s);
    }
  }

  /** A one-letter last label is refused, with or without a final newline. */
  lemma ShortLastLabelRejected(s: string)
    requires |s| >= 2 && s[|s| - 2] == '.'
    ensures !PatternMatches(s) && !PatternMatches(s + "\n")
  {
    if FullMatch(s) {
      FullMatchShape(s);
    }
    var v := s + "\n";
    assert v[..|v| - 1] == s;
    if FullMatch(v) {
      FullMatchShape(v);
    }
  }

  /** A leading empty label is refused. */
  lemma LeadingDotRejected(s: string)
    requires s != [] && s[0] == '.'
    ensures !PatternMatches(s)
  {
    if FullMatch(s) {
      FullMatchShape(s);
    }
    if |s| > 1 && FullMatch(s[..|s| - 1]) {
      FullMatchShape(s[..|s| - 1]);
    }
  }

  /** An empty label between two dots is refused. */
  lemma DoubleDotRejected(s: string, i: nat)
    requires i + 1 < |s| && s[i] == '.' && s[i + 1] == '.'
    ensures !PatternMatches(s)
  {
    if FullMatch(s) {
      FullMatchShape(s);
    }
    if FullMatch(s[..|s| - 1]) {
      FullMatchShape(s[..|s| - 1]);
    }
  }

  /** A label, a dot and a final run of at least two letters is accepted. */
  lemma TwoLabelsAccepted(part: string, tld: string)
    requires IsLabel(part) && IsTld(tld)
    ensures FullMatch(part + "." + tld) && PatternMatches(part + "." + tld)
  {
    var s := part + "." + tld;
    var k := |part| + 1;
    assert s[..k][..|part|] == part;
    assert s[..k][|part|] == '.';
    assert DottedLabels(s[..k]);
    assert s[k..] == tld;
  }

  /** Another label in front of an accepted name is accepted: subdomains pass. */
  lemma SubdomainAccepted(part: string, s: string)
    requires IsLabel(part) && FullMatch(s)
    ensures FullMatch(part + "." + s)
  {
    var k :| 0 < k < |s| && DottedLabels(s[..k]) && IsTld(s[k..]);
    var d := part + "." + s;
    var n := |part| + 1;
    assert d[..n + k][..|part|] == part;
    assert d[..n + k][|part|] == '.';
    assert d[..n + k][|part| + 1..] == s[..k];
    assert DottedLabels(d[..n + k]);
    assert d[n + k..] == s[k..];
  }

  /** Because of `$`, one trailing newline is accepted exactly when the name before it is. */
  lemma TrailingNewlineAccepted(s: string)
    ensures PatternMatches(s + "\n") <==> FullMatch(s)
  {
    var v := s + "\n";
    assert v[..|v| - 1] == s;
    if FullMatch(v) {
      FullMatchShape(v);
    }
  }

  /** Two trailing newlines are refused. */
  lemma TwoNewlinesRejected(s: string)
    ensures !PatternMatches(s + "\n\n")
  {
    var v := s + "\n\n";
    if FullMatch(v) {
      FullMatchShape(v);
    }
    if FullMatch(v[..|v| - 1]) {
      FullMatchShape(v[..|v| - 1]);
    }
  }
}
