/**
 * Character and string helpers shared by the domain, report and token rules.
 * Python's `str.lower()` and `str.strip()` are modelled on ASCII only.
 */
module Text {
  import opened Wrappers

  predicate IsUpperAscii(c: char) {
    'A' <= c <= 'Z'
  }

  function LowerChar(c: char): (r: char)
    ensures !IsUpperAscii(r)
    ensures !IsUpperAscii(c) ==> r == c
  {
    if IsUpperAscii(c) then (c as int + 32) as char else c
  }

  /** `s.lower()`: every letter lowered, length and every other character kept. */
  function Lower(s: string): (r: string)
    ensures |r| == |s|
    ensures forall i :: 0 <= i < |s| ==> r[i] == LowerChar(s[i])
  {
    if s == [] then [] else [LowerChar(s[0])] + Lower(s[1..])
  }

  lemma LowerIdempotent(s: string)
    ensures Lower(Lower(s)) == Lower(s)
  {
  }

  predicate IsLowered(s: string) {
    forall i :: 0 <= i < |s| ==> !IsUpperAscii(s[i])
  }

  /** Lowering a string without capitals gives it back. */
  lemma LowerOfLowered(s: string)
    requires IsLowered(s)
    ensures Lower(s) == s
  {
    assert forall i :: 0 <= i < |s| ==> Lower(s)[i] == s[i];
  }

  /** The characters Python's `str.strip()` removes, restricted to ASCII. */
  predicate IsSpace(c: char) {
    c == ' ' || c == '\t' || c == '\n' || c == '\r' || c == '\U{0B}' || c == '\U{0C}'
    || c == '\U{1C}' || c == '\U{1D}' || c == '\U{1E}' || c == '\U{1F}'
  }

  /** How many characters at the front of `s` satisfy `drop`. */
  function LeadingCount(s: string, drop: char -> bool): (n: nat)
    ensures n <= |s|
    ensures n < |s| ==> !drop(s[n])
    ensures forall i :: 0 <= i < n ==> drop(s[i])
  {
    if s != [] && drop(s[0]) then 1 + LeadingCount(s[1..], drop) else 0
  }

  /** How many characters at the back of `s` satisfy `drop`. */
  function TrailingCount(s: string, drop: char -> bool): (n: nat)
    ensures n <= |s|
    ensures n < |s| ==> !drop(s[|s| - 1 - n])
    ensures forall i :: |s| - n <= i < |s| ==> drop(s[i])
  {
    if s != [] && drop(s[|s| - 1]) then 1 + TrailingCount(s[..|s| - 1], drop) else 0
  }

  /** `s.lstrip(chars)`. */
  function TrimLeft(s: string, drop: char -> bool): string {
    s[LeadingCount(s, drop)..]
  }

  /** `s.rstrip(chars)`. */
  function TrimRight(s: string, drop: char -> bool): string {
    s[..|s| - TrailingCount(s, drop)]
  }

  /** `s.strip(chars)`: leading and trailing characters satisfying `drop` removed. */
  function Strip(s: string, drop: char -> bool): (r: string)
    ensures r != [] ==> !drop(r[0]) && !drop(r[|r| - 1])
    ensures |r| <= |s|
  {
    var t := TrimLeft(s, drop);
    assert t != [] ==> t[0] == s[LeadingCount(s, drop)];
    TrimRight(t, drop)
  }

  /** A string that neither begins nor ends with a character `drop` removes is its own strip. */
  lemma StripOfClean(s: string, drop: char -> bool)
    requires s != [] && !drop(s[0]) && !drop(s[|s| - 1])
    ensures Strip(s, drop) == s
  {
    assert LeadingCount(s, drop) == 0;
    assert TrailingCount(s, drop) == 0;
  }

  predicate StartsWith(s: string, prefix: string) {
    |prefix| <= |s| && s[..|prefix|] == prefix
  }

  predicate EndsWith(s: string, suffix: string) {
    |suffix| <= |s| && s[|s| - |suffix|..] == suffix
  }

  /** `sub` occurs in `s` starting at index `j`. */
  predicate OccursAt(s: string, sub: string, j: int) {
    0 <= j && j + |sub| <= |s| && s[j..j + |sub|] == sub
  }

  /** The first index at or after `from` where `sub` occurs (Python's `s.find(sub, from)`). */
  function FindFrom(s: string, sub: string, from: nat): (r: Option<nat>)
    requires from <= |s|
    ensures r.Some? ==> from <= r.value && OccursAt(s, sub, r.value)
    ensures r.Some? ==> forall j :: from <= j < r.value ==> !OccursAt(s, sub, j)
    ensures r.None? ==> forall j :: from <= j ==> !OccursAt(s, sub, j)
    decreases |s| - from
  {
    if from + |sub| > |s| then None
    else if s[from..from + |sub|] == sub then Some(from)
    else if from == |s| then None
    else FindFrom(s, sub, from + 1)
  }

  function Find(s: string, sub: string): (r: Option<nat>)
    ensures r.Some? ==> OccursAt(s, sub, r.value) && forall j :: 0 <= j < r.value ==> !OccursAt(s, sub, j)
    ensures r.None? ==> forall j :: !OccursAt(s, sub, j)
  {
    FindFrom(s, sub, 0)
  }

  /** Python's `sub in s`. */
  predicate Contains(s: string, sub: string) {
    exists j :: 0 <= j <= |s| && OccursAt(s, sub, j)
  }

  /** Containment is what `Find` decides. */
  lemma ContainsIff(s: string, sub: string)
    ensures Contains(s, sub) <==> Find(s, sub).Some?
  {
  }

  /** A string containing `sub` also contains every piece of `sub`. */
  lemma {:induction false} ContainsPart(s: string, sub: string, i: nat, j: nat)
    requires Contains(s, sub) && i <= j <= |sub|
    ensures Contains(s, sub[i..j])
  {
    var k :| 0 <= k <= |s| && OccursAt(s, sub, k);
    var piece := sub[i..j];
    forall t | 0 <= t < |piece|
      ensures s[k + i + t] == piece[t]
    {
      assert s[k..k + |sub|][i + t] == sub[i + t];
    }
    assert s[k + i..k + i + |piece|] == piece;
    assert OccursAt(s, piece, k + i);
  }

  /** Python's `s.split(sep, 1)[0]`: everything before the first `sep`. */
  function Before(s: string, sep: string): (r: string)
    ensures StartsWith(s, r)
    ensures Find(s, sep).None? ==> r == s
  {
    match Find(s, sep)
    case Some(k) => s[..k]
    case None => s
  }

  /** Python's `s.split(sep, 1)[1]` when `sep` occurs: everything after the first `sep`. */
  function After(s: string, sep: string): (r: string)
    requires Contains(s, sep)
    ensures EndsWith(s, r) && |r| + |sep| <= |s|
  {
    ContainsIff(s, sep);
    var k := Find(s, sep).value;
    s[k + |sep|..]
  }

  /** No piece of `s` before the first `c` contains `c`. */
  lemma {:induction false} BeforeCharFree(s: string, c: char)
    ensures forall i :: 0 <= i < |Before(s, [c])| ==> Before(s, [c])[i] != c
  {
    var r := Before(s, [c]);
    forall i | 0 <= i < |r|
      ensures r[i] != c
    {
      if r[i] == c {
        assert OccursAt(s, [c], i);
      }
    }
  }

  /** Decimal digits of a natural number, as Python's `str(n)`. */
  function NatToString(n: nat): (r: string)
    ensures |r| >= 1
    ensures forall i :: 0 <= i < |r| ==> '0' <= r[i] <= '9'
    decreases n
  {
    if n < 10 then [DigitChar(n)] else NatToString(n / 10) + [DigitChar(n % 10)]
  }

  function DigitChar(d: nat): (r: char)
    requires d < 10
    ensures '0' <= r <= '9'
  {
    ('0' as int + d) as char
  }

  /** Lexicographic order on strings by code point, as Python compares `str` values. */
  predicate LexLessEq(a: string, b: string) {
    if a == [] then true
    else if b == [] then false
    else if a[0] != b[0] then a[0] < b[0]
    else LexLessEq(a[1..], b[1..])
  }

  lemma {:induction false} LexTotal(a: string, b: string)
    ensures LexLessEq(a, b) || LexLessEq(b, a)
  {
    if a != [] && b != [] && a[0] == b[0] {
      LexTotal(a[1..], b[1..]);
    }
  }

  lemma {:induction false} LexTransitive(a: string, b: string, c: string)
    requires LexLessEq(a, b) && LexLessEq(b, c)
    ensures LexLessEq(a, c)
  {
    if a != [] && b != [] && c != [] && a[0] == b[0] && b[0] == c[0] {
      LexTransitive(a[1..], b[1..], c[1..]);
    }
  }

  /** A prefix one longer is the prefix with the next element appended. */
  lemma PrefixStep<T>(s: seq<T>, i: nat)
    requires i < |s|
    ensures s[..i + 1] == s[..i] + [s[i]]
  {
  }

  /** A non-empty sequence is its prefix with its last element appended. */
  lemma SplitLast<T>(s: seq<T>)
    requires s != []
    ensures s == s[..|s| - 1] + [s[|s| - 1]]
  {
  }
}
