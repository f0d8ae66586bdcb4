/** Technology fingerprinting: every rule of the table that matches any of the first five probed
    responses is reported, once. */
module TechFingerprint {
  import opened Seqs
  import opened Strs
  import opened Http
  import opened Signatures

  const TechSignaturesDB: seq<Signature> := [
    Signature("Nginx", "header", "server: nginx"),
    Signature("Apache", "header", "server: Apache"),
    Signature("Cloudflare", "header", "server: cloudflare"),
    Signature("PHP", "header", "x-powered-by: PHP"),
    Signature("ASP.NET", "header", "x-aspnet-version:"),
    Signature("PHP Session", "cookie", "PHPSESSID"),
    Signature("Java Session", "cookie", "JSESSIONID"),
    Signature("WordPress", "body", "wp-content"),
    Signature("React", "body", "data-reactroot"),
    Signature("Angular", "body", "ng-version")
  ]

  const CheckLimit: nat := 5

  /** A technology rule matches a response by its kind; any other kind never matches. */
  predicate TechMatches(sig: Signature, resp: Response)
  {
    if sig.kind == "header" then HeaderRuleMatches(resp.header, sig.pattern)
    else if sig.kind == "cookie" then CookieRuleMatches(resp.cookies, sig.pattern)
    else if sig.kind == "body" then BodyRuleMatches(resp.body, sig.pattern)
    else false
  }

  /** The URLs that are probed: the first `min(5, |urls|)`. */
  function Probed(urls: seq<string>): (p: seq<string>)
    ensures |p| <= CheckLimit && HasPrefixSeq(urls, p)
  {
    if |urls| < CheckLimit then urls else urls[..CheckLimit]
  }

  predicate HasPrefixSeq(s: seq<string>, p: seq<string>)
  {
    |p| <= |s| && s[..|p|] == p
  }

  /** The names of the rules one probe's outcome matches; a failed request matches none. */
  ghost function NamesFor(o: Outcome): set<string>
  {
    if o.Failed? then {} else set s | s in TechSignaturesDB && TechMatches(s, o.resp) :: s.name
  }

  /** The names of all rules matched by some probed response. */
  ghost function DetectedNames(env: Env, urls: seq<string>): set<string>
  {
    set u, n | u in urls && n in NamesFor(Get(env, u)) :: n
  }

  /** The rule loop for one response: the names of the rules in `db` it matches. */
  method MatchResponse(db: seq<Signature>, resp: Response) returns (names: set<string>)
    ensures names == set s | s in db && TechMatches(s, resp) :: s.name
  {
    names := {};
    for i := 0 to |db|
      invariant names == set s | s in db[..i] && TechMatches(s, resp) :: s.name
    {
      var sig := db[i];
      var found := false;
      if sig.kind == "header" {
        found := ScanHeaders(resp.header, sig.pattern);
      } else if sig.kind == "cookie" {
        found := ScanCookies(resp.cookies, sig.pattern);
      } else if sig.kind == "body" {
        found := Contains(resp.body, sig.pattern);
      }
      assert found == TechMatches(sig, resp);
      assert db[..i + 1] == db[..i] + [sig];
      if found {
        names := names + {sig.name};
      }
    }
    assert db[..|db|] == db;
  }

  /** `FingerprintTechnologies`: the first five URLs are probed (none for an empty list) and the
      result lists each detected name once. */
  method FingerprintTechnologies(env: Env, urls: seq<string>) returns (r: seq<string>, ghost probes: seq<string>)
    ensures probes == Probed(urls)
    ensures urls == [] ==> r == [] && probes == []
    ensures NoDup(r)
    ensures Elems(r) == DetectedNames(env, Probed(urls))
  {
    if |urls| == 0 {
      return [], [];
    }
    var checkLimit := CheckLimit;
    if |urls| < checkLimit {
      checkLimit := |urls|;
    }
    var toProbe := urls[..checkLimit];
    assert toProbe == Probed(urls);
    var detectedTech: set<string> := {};
    probes := [];
    for i := 0 to |toProbe|
      invariant probes == toProbe[..i]
      invariant detectedTech == DetectedNames(env, toProbe[..i])
    {
      var u := toProbe[i];
      probes := probes + [u];
      assert toProbe[..i + 1] == toProbe[..i] + [u];
      DetectedSnoc(env, toProbe[..i], u);
      var o := Get(env, u);
      if o.Failed? {
        continue;
      }
      var names := MatchResponse(TechSignaturesDB, o.resp);
      detectedTech := detectedTech + names;
    }
    assert toProbe[..|toProbe|] == toProbe;
    r := SetToSeq(detectedTech);
  }

  lemma DetectedSnoc(env: Env, urls: seq<string>, u: string)
    ensures DetectedNames(env, urls + [u]) == DetectedNames(env, urls) + NamesFor(Get(env, u))
  {
  }

  /** Only the first five URLs matter: URLs after the fifth never change the result. */
  lemma {:induction false} LaterUrlsIgnored(env: Env, urls: seq<string>, more: seq<string>)
    requires |urls| >= CheckLimit
    ensures DetectedNames(env, Probed(urls + more)) == DetectedNames(env, Probed(urls))
  {
    assert (urls + more)[..CheckLimit] == urls[..CheckLimit];
  }

  /** A rule of an unrecognised kind never matches any response. */
  lemma UnknownKindNeverMatches(sig: Signature, resp: Response)
    requires sig.kind !in {"header", "cookie", "body"}
    ensures !TechMatches(sig, resp)
  {
  }
}
