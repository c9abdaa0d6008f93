/**
 * Matching a DNS TXT answer against a site's verification token, as both the
 * verification task (backend/app/tasks/domain_verification.py) and the ownership
 * check (backend/app/middleware/site_middleware.py) do it: each record's strings are
 * joined, trimmed of whitespace, then of double quotes, and one leading prefix is
 * removed before comparing.
 */
module TxtToken {
  import opened Text

  /** The prefix the registration hands out in front of the token. */
  const Prefix: string := "hackyourownweb-verify="

  /** `"".join(rdata.strings)`: the character strings of one TXT record, concatenated. */
  function Join(parts: seq<string>): (r: string)
    ensures parts == [] ==> r == []
    ensures |parts| == 1 ==> r == parts[0]
  {
    if parts == [] then [] else Join(parts[..|parts| - 1]) + parts[|parts| - 1]
  }

  predicate IsQuote(c: char) {
    c == '"'
  }

  /** The record text before the prefix test: `.strip().strip('"')`. */
  function Unquoted(parts: seq<string>): string {
    Strip(Strip(Join(parts), IsSpace), IsQuote)
  }

  /** The token a record offers: its text, with one leading `prefix` removed when present. */
  function Candidate(parts: seq<string>, prefix: string): string {
    var txt := Unquoted(parts);
    if StartsWith(txt, prefix) then txt[|prefix|..] else txt
  }

  /**
   * What resolving a domain's TXT records gives: the records, each a sequence of
   * character strings, or the resolver's error (no such domain, no TXT records, any
   * other failure such as a timeout).
   */
  datatype TxtAnswer = Records(records: seq<seq<string>>) | NxDomain | NoAnswer | ResolveFailure

  /** Some record of the answer offers exactly `token`. */
  predicate TokenFound(records: seq<seq<string>>, prefix: string, token: string) {
    exists i :: 0 <= i < |records| && Candidate(records[i], prefix) == token
  }

  /**
   * The loop over the answer: `found` is set at the first record whose candidate is
   * the token, and the search stops there.
   */
  method FirstMatch(records: seq<seq<string>>, prefix: string, token: string) returns (found: bool, at: nat)
    ensures found <==> TokenFound(records, prefix, token)
    ensures found ==> at < |records| && Candidate(records[at], prefix) == token
    ensures found ==> forall j :: 0 <= j < at ==> Candidate(records[j], prefix) != token
  {
    found, at := false, 0;
    var i := 0;
    while i < |records|
      invariant 0 <= i <= |records|
      invariant forall j :: 0 <= j < i ==> Candidate(records[j], prefix) != token
    {
      if Candidate(records[i], prefix) == token {
        found, at := true, i;
        break;
      }
      i := i + 1;
    }
  }

  /** Stripping one character on each side that `drop` removes, around a clean string, gives the string. */
  lemma StripOfWrapped(c: char, s: string, drop: char -> bool)
    requires drop(c) && s != [] && !drop(s[0]) && !drop(s[|s| - 1])
    ensures Strip([c] + s + [c], drop) == s
  {
    var w := [c] + s + [c];
    assert w[1..] == s + [c];
    assert LeadingCount(w[1..], drop) == 0;
    assert TrimLeft(w, drop) == s + [c];
    assert (s + [c])[..|s|] == s;
    assert TrailingCount(s, drop) == 0;
    assert TrailingCount(s + [c], drop) == 1;
  }

  /** The text the registration tells the owner to publish, `prefix` followed by the token, is clean. */
  lemma PublishedClean(prefix: string, token: string)
    requires prefix != [] && !IsSpace(prefix[0]) && !IsQuote(prefix[0])
    requires token != [] && !IsSpace(token[|token| - 1]) && !IsQuote(token[|token| - 1])
    ensures var t := prefix + token;
      t != [] && !IsSpace(t[0]) && !IsQuote(t[0]) && !IsSpace(t[|t| - 1]) && !IsQuote(t[|t| - 1])
    ensures StartsWith(prefix + token, prefix) && (prefix + token)[|prefix|..] == token
  {
    var t := prefix + token;
    assert t[0] == prefix[0] && t[|t| - 1] == token[|token| - 1];
    assert t[..|prefix|] == prefix;
  }

  /** A clean text, published bare in one string, comes back unchanged. */
  lemma UnquotedOfClean(t: string)
    requires t != [] && !IsSpace(t[0]) && !IsQuote(t[0]) && !IsSpace(t[|t| - 1]) && !IsQuote(t[|t| - 1])
    ensures Unquoted([t]) == t
  {
    assert Join([t]) == t;
    StripOfClean(t, IsSpace);
    StripOfClean(t, IsQuote);
  }

  /** A clean text, published in double quotes, comes back without them. */
  lemma UnquotedOfQuoted(t: string)
    requires t != [] && !IsSpace(t[0]) && !IsQuote(t[0]) && !IsSpace(t[|t| - 1]) && !IsQuote(t[|t| - 1])
    ensures Unquoted([['"'] + t + ['"']]) == t
  {
    var q := ['"'] + t + ['"'];
    assert Join([q]) == q;
    assert q[0] == '"' && q[|q| - 1] == '"';
    StripOfClean(q, IsSpace);
    StripOfWrapped('"', t, IsQuote);
  }

  /** The candidate of a record is decided by its unquoted text. */
  lemma CandidateOfText(parts: seq<string>, prefix: string, txt: string)
    requires Unquoted(parts) == txt
    ensures StartsWith(txt, prefix) ==> Candidate(parts, prefix) == txt[|prefix|..]
    ensures !StartsWith(txt, prefix) ==> Candidate(parts, prefix) == txt
  {
  }

  /**
   * The record the registration tells the owner to publish, `prefix` followed by the
   * token, yields the token.
   */
  lemma PublishedRecordMatches(prefix: string, token: string)
    requires prefix != [] && !IsSpace(prefix[0]) && !IsQuote(prefix[0])
    requires token != [] && !IsSpace(token[|token| - 1]) && !IsQuote(token[|token| - 1])
    ensures Candidate([prefix + token], prefix) == token
  {
    PublishedClean(prefix, token);
    var t := prefix + token;
    UnquotedOfClean(t);
    CandidateOfText([t], prefix, t);
  }

  /** The same record published in double quotes yields the token too. */
  lemma QuotedRecordMatches(prefix: string, token: string)
    requires prefix != [] && !IsSpace(prefix[0]) && !IsQuote(prefix[0])
    requires token != [] && !IsSpace(token[|token| - 1]) && !IsQuote(token[|token| - 1])
    ensures Candidate(["\"" + prefix + token + "\""], prefix) == token
  {
    PublishedClean(prefix, token);
    var t := prefix + token;
    var q := "\"" + prefix + token + "\"";
    assert q == ['"'] + t + ['"'];
    UnquotedOfQuoted(t);
    CandidateOfText([q], prefix, t);
  }

  /** Any record carrying the published text makes the search succeed. */
  lemma PublishedTokenFound(records: seq<seq<string>>, i: nat, prefix: string, token: string)
    requires i < |records| && records[i] == [prefix + token]
    requires prefix != [] && !IsSpace(prefix[0]) && !IsQuote(prefix[0])
    requires token != [] && !IsSpace(token[|token| - 1]) && !IsQuote(token[|token| - 1])
    ensures TokenFound(records, prefix, token)
  {
    PublishedRecordMatches(prefix, token);
  }

  /** A record without the prefix offers its whole trimmed text: the bare token is accepted too. */
  lemma BareTokenMatches(prefix: string, token: string)
    requires token != [] && !IsSpace(token[0]) && !IsQuote(token[0])
    requires !IsSpace(token[|token| - 1]) && !IsQuote(token[|token| - 1])
    requires !StartsWith(token, prefix)
    ensures Candidate([token], prefix) == token
  {
    StripOfClean(token, IsSpace);
    StripOfClean(token, IsQuote);
  }
}
