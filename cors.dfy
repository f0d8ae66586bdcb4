/** CORS probing: one request per distinct scheme and host, carrying a hostile Origin; a host is
    reported when the Access-Control-Allow-Origin it returns admits that origin (the CORS protocol,
    section 3.2 of the WHATWG Fetch Standard) or is the wildcard. */
module Cors {
  import opened Wrappers
  import opened Seqs
  import opened Http

  const MaliciousOrigin := "https://evil.com"

  /** The deduplication key of an endpoint: scheme "://" host. */
  function HostKey(u: Url): string
  {
    u.scheme + "://" + u.host
  }

  /** The probe for a host key: a GET of the key URL itself with the hostile Origin. */
  function ProbeRequest(key: string, userAgent: string): Request
  {
    Request(key, map["Origin" := MaliciousOrigin, "User-Agent" := userAgent])
  }

  /** The reflected ACAO value makes a host vulnerable iff it is exactly the hostile origin or "*". */
  predicate AcaoVulnerable(acao: string)
  {
    acao == MaliciousOrigin || acao == "*"
  }

  function FindingText(host: string, acao: string): string
  {
    "VULNERABLE: [" + host + "] - Responded with ACAO header: " + acao
  }

  /** The keys of all endpoints whose request can be built. */
  ghost function KeySet(parse: string -> Option<Url>, endpoints: seq<string>): set<string>
  {
    set e | e in endpoints && parse(e).Some? :: HostKey(parse(e).value)
  }

  lemma KeySetSnoc(parse: string -> Option<Url>, endpoints: seq<string>, e: string)
    ensures KeySet(parse, endpoints + [e])
         == KeySet(parse, endpoints) + (if parse(e).Some? then {HostKey(parse(e).value)} else {})
  {
  }

  /** What one probe contributes: a finding when the response's ACAO value is vulnerable. */
  function ProbeFinding(env: Env, req: Request): seq<string>
  {
    var o := Do(env, req);
    if o.Failed? then []
    else
      var acao := HeaderGet(o.resp.header, "Access-Control-Allow-Origin");
      if AcaoVulnerable(acao) then [FindingText(req.url, acao)] else []
  }

  /** The findings of a sequence of probes, in probe order. */
  function FindingsFor(env: Env, probes: seq<Request>): seq<string>
  {
    if probes == [] then [] else FindingsFor(env, probes[..|probes| - 1]) + ProbeFinding(env, probes[|probes| - 1])
  }

  function Urls(probes: seq<Request>): (r: seq<string>)
    ensures |r| == |probes| && forall i :: 0 <= i < |probes| ==> r[i] == probes[i].url
  {
    seq(|probes|, i requires 0 <= i < |probes| => probes[i].url)
  }

  /** The first loop of `CheckCORS`: keep the key of each endpoint whose URL parses, the first
      time it is seen. */
  method DistinctKeys(parse: string -> Option<Url>, endpoints: seq<string>) returns (hosts: seq<string>)
    ensures NoDup(hosts)
    ensures Elems(hosts) == KeySet(parse, endpoints)
  {
    var hostsChecked: set<string> := {};
    hosts := [];
    for i := 0 to |endpoints|
      invariant hostsChecked == Elems(hosts) == KeySet(parse, endpoints[..i])
      invariant NoDup(hosts)
    {
      assert endpoints[..i + 1] == endpoints[..i] + [endpoints[i]];
      KeySetSnoc(parse, endpoints[..i], endpoints[i]);
      var parsed := parse(endpoints[i]);
      if parsed.None? {
        continue;
      }
      var host := HostKey(parsed.value);
      if host in hostsChecked {
        continue;
      }
      ElemsSnoc(hosts, host);
      hostsChecked := hostsChecked + {host};
      hosts := hosts + [host];
    }
    assert endpoints[..|endpoints|] == endpoints;
  }

  /** `CheckCORS`: endpoints whose request cannot be built are skipped; every distinct key is probed
      exactly once, at the key URL, with the hostile Origin; the findings are those of the probes, in
      the order the probes finish. */
  method CheckCORS(env: Env, userAgent: string, endpoints: seq<string>)
    returns (findings: seq<string>, ghost probes: seq<Request>)
    ensures NoDup(Urls(probes))
    ensures Elems(Urls(probes)) == KeySet(env.parse, endpoints)
    ensures |probes| == |KeySet(env.parse, endpoints)|
    ensures forall p :: p in probes ==> p == ProbeRequest(p.url, userAgent)
    ensures multiset(findings) == multiset(FindingsFor(env, probes))
    ensures |findings| <= |probes|
  {
    var hosts := DistinctKeys(env.parse, endpoints);
    NoDupCard(hosts);
    probes := seq(|hosts|, i requires 0 <= i < |hosts| => ProbeRequest(hosts[i], userAgent));
    assert Urls(probes) == hosts;
    findings := [];
    for i := 0 to |hosts|
      invariant findings == FindingsFor(env, probes[..i])
      invariant |findings| <= i
    {
      assert probes[..i + 1][..i] == probes[..i];
      var req := ProbeRequest(hosts[i], userAgent);
      assert req == probes[i];
      var o := Do(env, req);
      if o.Got? {
        var acaoHeader := HeaderGet(o.resp.header, "Access-Control-Allow-Origin");
        if AcaoVulnerable(acaoHeader) {
          findings := findings + [FindingText(hosts[i], acaoHeader)];
        }
      }
    }
    assert probes[..|probes|] == probes;
  }

  lemma {:induction false} NoDupCard<T>(s: seq<T>)
    requires NoDup(s)
    ensures |Elems(s)| == |s|
  {
    if s != [] {
      var n := |s| - 1;
      assert NoDup(s[..n]);
      NoDupCard(s[..n]);
      assert Elems(s) == Elems(s[..n]) + {s[n]};
      assert s[n] !in Elems(s[..n]);
    }
  }

  /** Each probe yields at most one finding, and only for a vulnerable ACAO value. */
  lemma {:induction false} FindingsAreVulnerable(env: Env, probes: seq<Request>, f: string)
    requires f in FindingsFor(env, probes)
    ensures exists p :: p in probes && Do(env, p).Got?
                     && AcaoVulnerable(HeaderGet(Do(env, p).resp.header, "Access-Control-Allow-Origin"))
                     && f == FindingText(p.url, HeaderGet(Do(env, p).resp.header, "Access-Control-Allow-Origin"))
  {
    var n := |probes| - 1;
    if f in FindingsFor(env, probes[..n]) {
      FindingsAreVulnerable(env, probes[..n], f);
    } else {
      assert f in ProbeFinding(env, probes[n]);
    }
  }

  /** Two endpoints on one host and one on another give exactly two probes. */
  lemma TwoHostsTwoProbes(parse: string -> Option<Url>, qx: set<string>, qy: set<string>, qz: set<string>)
    requires parse("https://a.com/x") == Some(Url("https", "a.com", qx))
    requires parse("https://a.com/y") == Some(Url("https", "a.com", qy))
    requires parse("https://b.com/z") == Some(Url("https", "b.com", qz))
    ensures |KeySet(parse, ["https://a.com/x", "https://a.com/y", "https://b.com/z"])| == 2
  {
    var eps := ["https://a.com/x", "https://a.com/y", "https://b.com/z"];
    assert HostKey(Url("https", "a.com", qx)) == "https://a.com";
    assert HostKey(Url("https", "b.com", qz)) == "https://b.com";
    assert KeySet(parse, eps) == {"https://a.com", "https://b.com"};
  }
}
