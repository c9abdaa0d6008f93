/**
 * Domain-name helpers (backend/app/utils/domain_utils.py): normalising a user-typed
 * domain for comparison, the subdomain test built on it, and the domain of a URL
 * whose host name the URL parser has already extracted.
 */
module DomainUtils {
  import opened Wrappers
  import opened Text

  /** `s.startswith("www.")` followed by `s[4:]`: one leading "www." removed. */
  function DropWww(s: string): (r: string)
    ensures StartsWith(s, "www.") ==> r == s[4..]
    ensures !StartsWith(s, "www.") ==> r == s
  {
    if StartsWith(s, "www.") then s[4..] else s
  }

  /** A string has character `c` somewhere exactly when it contains the one-character string. */
  lemma ContainsChar(s: string, c: char)
    ensures Contains(s, [c]) <==> exists i :: 0 <= i < |s| && s[i] == c
  {
    if exists i :: 0 <= i < |s| && s[i] == c {
      var i :| 0 <= i < |s| && s[i] == c;
      assert OccursAt(s, [c], i);
    }
    if Contains(s, [c]) {
      var j :| 0 <= j <= |s| && OccursAt(s, [c], j);
      assert s[j..j + 1] == [c];
      assert s[j] == s[j..j + 1][0];
      assert 0 <= j < |s| && s[j] == c;
    }
  }

  /** `c` does not occur in `s`. */
  predicate Free(s: string, c: char) {
    forall i :: 0 <= i < |s| ==> s[i] != c
  }

  /** `if "://" in d: d = d.split("://", 1)[1]`: everything up to the first "://" cut away. */
  function CutScheme(d: string): (r: string)
    ensures |r| <= |d|
    ensures Free(d, ':') ==> r == d
  {
    SchemeNeedsColon(d);
    if Contains(d, "://") then After(d, "://") else d
  }

  /** A string without ":" has no "://". */
  lemma SchemeNeedsColon(d: string)
    ensures Free(d, ':') ==> !Contains(d, "://")
  {
    if Contains(d, "://") {
      var j :| 0 <= j <= |d| && OccursAt(d, "://", j);
      assert d[j..j + 3][0] == d[j];
    }
  }

  /** `if c in d: d = d.split(c)[0]`: everything from the first `c` cut away. */
  function CutAt(d: string, c: char): (r: string)
    ensures |r| <= |d| && Free(r, c)
    ensures Free(d, c) ==> r == d
  {
    BeforeCharFree(d, c);
    ContainsChar(d, c);
    if Contains(d, [c]) then Before(d, [c]) else d
  }

  /** What the scheme cut keeps is a tail of its input. */
  lemma CutSchemeSuffix(d: string)
    ensures EndsWith(d, CutScheme(d))
  {
  }

  /** What a cut at a character keeps is a head of its input. */
  lemma CutAtPrefix(d: string, c: char)
    ensures StartsWith(d, CutAt(d, c))
  {
  }

  /**
   * `normalize_domain`: trimmed and lowered, one leading "www." removed, then
   * everything up to a "://", from a "/" and from a ":" cut away, in that order.
   */
  function NormalizeDomain(domain: string): (r: string)
    ensures |r| <= |domain|
  {
    CutAt(CutAt(CutScheme(DropWww(Lower(Strip(domain, IsSpace)))), '/'), ':')
  }

  /** A normalised domain has no "/" and no ":" left, and no capital letters. */
  lemma NormalizeDomainClean(domain: string)
    ensures forall i :: 0 <= i < |NormalizeDomain(domain)| ==> NormalizeDomain(domain)[i] != '/' && NormalizeDomain(domain)[i] != ':'
    ensures IsLowered(NormalizeDomain(domain))
  {
    var d0 := DropWww(Lower(Strip(domain, IsSpace)));
    assert IsLowered(d0);
    CutsClean(d0);
  }

  /** The three cuts applied to a lowered name leave it lowered and free of "/" and ":". */
  lemma CutsClean(d0: string)
    requires IsLowered(d0)
    ensures var d3 := CutAt(CutAt(CutScheme(d0), '/'), ':');
      IsLowered(d3) && Free(d3, '/') && Free(d3, ':')
  {
    var d1 := CutScheme(d0);
    var d2 := CutAt(d1, '/');
    var d3 := CutAt(d2, ':');
    CutSchemeSuffix(d0);
    CutAtPrefix(d1, '/');
    CutAtPrefix(d2, ':');
    assert d1 == d0[|d0| - |d1|..];
    SliceLowered(d0, |d0| - |d1|, |d0|);
    assert d2 == d1[..|d2|];
    SliceLowered(d1, 0, |d2|);
    assert d3 == d2[..|d3|];
    SliceLowered(d2, 0, |d3|);
    assert forall i :: 0 <= i < |d3| ==> d3[i] == d2[i];
  }

  lemma SliceLowered(s: string, i: nat, j: nat)
    requires IsLowered(s) && i <= j <= |s|
    ensures IsLowered(s[i..j])
  {
    assert forall k :: 0 <= k < j - i ==> s[i..j][k] == s[i + k];
  }

  /** A lowered name without surrounding space skips the trimming and lowering steps. */
  lemma NormalizeOfTrimmed(d: string)
    requires IsLowered(d)
    requires d == [] || (!IsSpace(d[0]) && !IsSpace(d[|d| - 1]))
    ensures NormalizeDomain(d) == CutAt(CutAt(CutScheme(DropWww(d)), '/'), ':')
  {
    if d != [] {
      StripOfClean(d, IsSpace);
    }
    LowerOfLowered(d);
  }

  /**
   * A domain already in normal form apart from a leading "www." (lowered, no
   * surrounding space, no "/" or ":") normalises to itself with that "www." dropped.
   */
  lemma NormalizeOfPlain(d: string)
    requires Plain(d)
    ensures NormalizeDomain(d) == DropWww(d)
  {
    var e := DropWww(d);
    assert forall i :: 0 <= i < |e| ==> e[i] == d[|d| - |e| + i];
    assert CutScheme(e) == e;
    assert CutAt(e, '/') == e;
    assert CutAt(e, ':') == e;
    NormalizeOfTrimmed(d);
  }

  /** The conditions under which `NormalizeOfPlain` applies. */
  predicate Plain(d: string) {
    && IsLowered(d)
    && (d == [] || (!IsSpace(d[0]) && !IsSpace(d[|d| - 1])))
    && forall i :: 0 <= i < |d| ==> d[i] != '/' && d[i] != ':'
  }

  /** Lowering a character keeps it a space exactly when it was one. */
  lemma LowerCharSpace(c: char)
    ensures IsSpace(LowerChar(c)) <==> IsSpace(c)
  {
  }

  /**
   * Normalising first trims the surrounding space and lowers the letters: any input
   * normalises as its trimmed, lowered form does.
   */
  lemma NormalizeOfRaw(d: string)
    ensures NormalizeDomain(d) == NormalizeDomain(Lower(Strip(d, IsSpace)))
  {
    var u := Strip(d, IsSpace);
    var t := Lower(u);
    if t != [] {
      LowerCharSpace(u[0]);
      LowerCharSpace(u[|u| - 1]);
    }
    NormalizeOfTrimmed(t);
  }

  /**
   * Input that is a host name apart from capitals and surrounding space, such as
   * "WWW.Example.COM" or "  Sub.Example.com  ", normalises to its trimmed, lowered
   * form with a leading "www." dropped.
   */
  lemma NormalizeOfPaddedHost(d: string)
    requires Plain(Lower(Strip(d, IsSpace)))
    ensures NormalizeDomain(d) == DropWww(Lower(Strip(d, IsSpace)))
  {
    NormalizeOfRaw(d);
    NormalizeOfPlain(Lower(Strip(d, IsSpace)));
  }

  /**
   * One pass drops only one "www.", so normalising is not idempotent:
   * "www.www." + e normalises to "www." + e, and that to e.
   */
  lemma NormalizeDomainNotIdempotent(e: string)
    requires Plain(e)
    ensures NormalizeDomain("www.www." + e) == "www." + e
    ensures NormalizeDomain(NormalizeDomain("www.www." + e)) == e
  {
    var e1 := "www." + e;
    WwwPlain(e);
    WwwPlain(e1);
    assert "www.www." + e == "www." + e1;
    NormalizeOfPlain("www." + e1);
    NormalizeOfPlain(e1);
  }

  /** A plain name behind "www." is plain, and dropping the "www." gives it back. */
  lemma WwwPlain(e: string)
    requires Plain(e)
    ensures Plain("www." + e) && DropWww("www." + e) == e
  {
    var d := "www." + e;
    assert forall i :: 0 <= i < |d| ==> d[i] == if i < 4 then "www."[i] else e[i - 4];
    assert d[..4] == "www." && d[4..] == e;
  }

  /**
   * The "www." is dropped before the scheme is cut: a URL "scheme://www.host"
   * normalises to "www.host", keeping its "www.".
   */
  lemma NormalizeKeepsWwwAfterScheme(scheme: string, host: string)
    requires Plain(scheme) && scheme != [] && !StartsWith(scheme, "www.")
    requires Plain(host)
    ensures NormalizeDomain(scheme + "://" + "www." + host) == "www." + host
  {
    var rest := "www." + host;
    var d := scheme + "://" + rest;
    assert scheme + "://" + "www." + host == d;
    assert Plain(rest) by {
      assert forall i :: 0 <= i < |rest| ==> rest[i] == if i < 4 then "www."[i] else host[i - 4];
    }
    assert IsLowered(d) by {
      forall i | 0 <= i < |d|
        ensures !IsUpperAscii(d[i])
      {
        if i >= |scheme| + 3 {
          assert d[i] == rest[i - |scheme| - 3];
        } else if i < |scheme| {
          assert d[i] == scheme[i];
        }
      }
    }
    assert d[0] == scheme[0] && d[|d| - 1] == rest[|rest| - 1];
    assert !StartsWith(d, "www.") by {
      if |scheme| >= 4 {
        assert d[..4] == scheme[..4];
      } else {
        assert d[|scheme|] == ':';
      }
    }
    CutSchemeOf(scheme, rest);
    assert CutAt(rest, '/') == rest;
    assert CutAt(rest, ':') == rest;
    NormalizeOfTrimmed(d);
  }

  /** Behind a scheme free of ":" the scheme cut keeps exactly what follows "://". */
  lemma CutSchemeOf(scheme: string, rest: string)
    requires forall i :: 0 <= i < |scheme| ==> scheme[i] != ':'
    ensures CutScheme(scheme + "://" + rest) == rest
  {
    var d := scheme + "://" + rest;
    assert d[|scheme| + 3..] == rest;
    assert OccursAt(d, "://", |scheme|);
    assert Find(d, "://") == Some(|scheme|) by {
      forall j | 0 <= j < |scheme|
        ensures !OccursAt(d, "://", j)
      {
        assert d[j] == scheme[j];
        assert j + 3 <= |d| ==> d[j..j + 3][0] == d[j];
      }
    }
  }

  /**
   * `is_subdomain_of`: both names normalised, then equal, or the subdomain ends with
   * a dot and the parent.
   */
  function IsSubdomainOf(subdomain: string, parent: string): (r: bool)
    ensures NormalizeDomain(subdomain) == NormalizeDomain(parent) ==> r
    ensures EndsWith(NormalizeDomain(subdomain), "." + NormalizeDomain(parent)) ==> r
    ensures r && NormalizeDomain(subdomain) != NormalizeDomain(parent) ==>
      |NormalizeDomain(parent)| < |NormalizeDomain(subdomain)|
  {
    var s, p := NormalizeDomain(subdomain), NormalizeDomain(parent);
    s == p || EndsWith(s, "." + p)
  }

  /** Every name is a subdomain of itself. */
  lemma SubdomainReflexive(d: string)
    ensures IsSubdomainOf(d, d)
  {
  }

  /**
   * A subdomain's normal form ends with its parent's normal form, and, when the two
   * differ, with a dot and the parent's normal form.
   */
  lemma SubdomainEndsWithParent(subdomain: string, parent: string)
    requires IsSubdomainOf(subdomain, parent)
    ensures EndsWith(NormalizeDomain(subdomain), NormalizeDomain(parent))
    ensures NormalizeDomain(subdomain) != NormalizeDomain(parent) ==>
      EndsWith(NormalizeDomain(subdomain), "." + NormalizeDomain(parent))
  {
    var s, p := NormalizeDomain(subdomain), NormalizeDomain(parent);
    if s != p {
      DottedSuffix(s, p);
    }
  }

  /** A normal form ending with a dot and the parent's normal form makes a subdomain. */
  lemma DottedSuffixIsSubdomain(subdomain: string, parent: string)
    requires EndsWith(NormalizeDomain(subdomain), "." + NormalizeDomain(parent))
    ensures IsSubdomainOf(subdomain, parent)
  {
  }

  /**
   * A label in front of a host name makes a subdomain of it: "api" and "example.com"
   * give "api.example.com", a subdomain of "example.com". The label `part` is a
   * lower-case host label without dots, other than "www", which normalisation would drop.
   */
  lemma ProperSubdomainAccepted(part: string, parent: string)
    requires Plain(part) && part != [] && part != "www"
    requires forall i :: 0 <= i < |part| ==> part[i] != '.'
    requires Plain(parent)
    ensures IsSubdomainOf(part + "." + parent, parent)
    ensures NormalizeDomain(part + "." + parent) != NormalizeDomain(parent)
  {
    var d := part + "." + parent;
    LabelledPlain(part, parent);
    NormalizeOfPlain(d);
    NormalizeOfPlain(parent);
    DotParentSuffix(part, parent);
  }

  /** A dot-free label, a dot and a host name make a host name not starting with "www.". */
  lemma LabelledPlain(part: string, parent: string)
    requires Plain(part) && part != [] && part != "www"
    requires forall i :: 0 <= i < |part| ==> part[i] != '.'
    requires Plain(parent)
    ensures Plain(part + "." + parent) && DropWww(part + "." + parent) == part + "." + parent
  {
    var d := part + "." + parent;
    assert forall i :: 0 <= i < |d| ==> d[i] == if i < |part| then part[i] else if i == |part| then '.' else parent[i - |part| - 1];
    assert d[0] == part[0];
    assert d[|d| - 1] == if parent == [] then '.' else parent[|parent| - 1];
    if |part| >= 4 {
      assert d[..4] == part[..4];
      assert part[3] != '.';
    } else if |part| == 3 {
      assert d[..3] == part;
    } else {
      assert d[|part|] == '.';
    }
  }

  /** A labelled host name ends with a dot and the host name with any leading "www." dropped. */
  lemma DotParentSuffix(part: string, parent: string)
    ensures EndsWith(part + "." + parent, "." + DropWww(parent))
  {
    var d := part + "." + parent;
    var p := DropWww(parent);
    if StartsWith(parent, "www.") {
      assert parent[3..] == "." + p;
      assert d[|d| - |p| - 1..] == parent[3..];
    } else {
      assert d[|d| - |p| - 1..] == "." + p;
    }
  }

  /** Ending with "." and `p` is ending with `p`. */
  lemma DottedSuffix(s: string, p: string)
    requires EndsWith(s, "." + p)
    ensures EndsWith(s, p)
  {
    assert s[|s| - |p|..] == s[|s| - |"." + p|..][1..];
  }

  /** Ending with a string that ends with `t` is ending with `t`. */
  lemma EndsWithTransitive(a: string, b: string, t: string)
    requires EndsWith(a, b) && EndsWith(b, t)
    ensures EndsWith(a, t)
  {
    assert a[|a| - |t|..] == a[|a| - |b|..][|b| - |t|..];
  }

  /** A subdomain of a subdomain is a subdomain. */
  lemma SubdomainTransitive(a: string, b: string, c: string)
    requires IsSubdomainOf(a, b) && IsSubdomainOf(b, c)
    ensures IsSubdomainOf(a, c)
  {
    var na, nb, nc := NormalizeDomain(a), NormalizeDomain(b), NormalizeDomain(c);
    if na != nb && nb != nc {
      assert EndsWith("." + nb, nb) by {
        assert ("." + nb)[1..] == nb;
      }
      EndsWithTransitive(na, "." + nb, nb);
      EndsWithTransitive(na, nb, "." + nc);
    }
  }

  /**
   * `extract_domain_from_url`, given the host name the URL parser found: none for a
   * missing or empty host, otherwise the host with one leading "www." removed, lowered.
   */
  function ExtractDomainFromUrl(hostname: Option<string>): (r: Option<string>)
    ensures r.None? <==> hostname.None? || hostname.value == ""
    ensures r.Some? ==> IsLowered(r.value) && r.value == Lower(DropWww(hostname.value))
  {
    if hostname.None? || hostname.value == "" then None
    else Some(Lower(DropWww(hostname.value)))
  }

  /**
   * The host name a URL parser yields is lower-case; with "www." in front it comes
   * back without it, and a host name in normal form comes back as `normalize_domain`
   * gives it.
   */
  lemma ExtractDropsWww(host: string)
    requires IsLowered(host)
    ensures ExtractDomainFromUrl(Some("www." + host)) == Some(host)
  {
    assert ("www." + host)[..4] == "www." && ("www." + host)[4..] == host;
    LowerOfLowered(host);
  }

  /** For a non-empty host name in normal form, the URL's domain is the normalised host. */
  lemma ExtractAgreesWithNormalize(host: string)
    requires Plain(host) && host != []
    ensures ExtractDomainFromUrl(Some(host)) == Some(NormalizeDomain(host))
  {
    NormalizeOfPlain(host);
    var e := DropWww(host);
    assert forall i :: 0 <= i < |e| ==> e[i] == host[|host| - |e| + i];
    LowerOfLowered(e);
  }
}
