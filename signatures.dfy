/** The matching semantics the technology and WAF detectors share. */
module Signatures {
  import opened Strs
  import opened Http

  /** A detection rule: the label it reports, the kind of evidence ("header", "cookie" or "body")
      and the pattern. */
  datatype Signature = Signature(name: string, kind: string, pattern: string)

  /** What a header rule inspects: the lower-cased name, ": ", and the lower-cased values joined
      by commas. */
  function HeaderLine(h: Header): string
  {
    ToLower(h.name) + ": " + ToLower(Join(h.values, ","))
  }

  /** A header rule matches when some header line contains the lower-cased pattern. */
  predicate HeaderRuleMatches(headers: seq<Header>, pattern: string)
  {
    exists h :: h in headers && Contains(HeaderLine(h), ToLower(pattern))
  }

  /** A cookie rule matches when some cookie's name equals the pattern ignoring case (whole-name
      equality, not containment). */
  predicate CookieRuleMatches(cookies: seq<string>, pattern: string)
  {
    exists c :: c in cookies && EqualFold(c, pattern)
  }

  /** A body rule is a case-sensitive substring test. */
  predicate BodyRuleMatches(body: string, pattern: string)
  {
    Contains(body, pattern)
  }

  /** The loop over the response headers that sets the `found` flag. */
  method ScanHeaders(headers: seq<Header>, pattern: string) returns (found: bool)
    ensures found == HeaderRuleMatches(headers, pattern)
  {
    found := false;
    var needle := ToLower(pattern);
    for i := 0 to |headers|
      invariant found <==> exists h :: h in headers[..i] && Contains(HeaderLine(h), needle)
    {
      var headerLine := HeaderLine(headers[i]);
      if Contains(headerLine, needle) {
        found := true;
      }
      assert headers[..i + 1] == headers[..i] + [headers[i]];
    }
    assert headers[..|headers|] == headers;
  }

  /** The loop over the response cookies that sets the `found` flag. */
  method ScanCookies(cookies: seq<string>, pattern: string) returns (found: bool)
    ensures found == CookieRuleMatches(cookies, pattern)
  {
    found := false;
    for i := 0 to |cookies|
      invariant found <==> exists c :: c in cookies[..i] && EqualFold(c, pattern)
    {
      if EqualFold(cookies[i], pattern) {
        found := true;
      }
      assert cookies[..i + 1] == cookies[..i] + [cookies[i]];
    }
    assert cookies[..|cookies|] == cookies;
  }

  /** A cookie whose name merely contains the pattern does not match. */
  lemma CookieMatchIsExact(pattern: string, extra: string)
    requires extra != ""
    ensures !CookieRuleMatches([pattern + extra], pattern)
  {
    assert |ToLower(pattern + extra)| != |ToLower(pattern)|;
  }
}
