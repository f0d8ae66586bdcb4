/** WAF fingerprinting: one probe carrying a script payload; the label of the first table entry
    whose rule matches the response. */
module Waf {
  import opened Strs
  import opened Http
  import opened Model
  import opened Signatures

  const WafSignaturesDB: seq<Signature> := [
    Signature("Cloudflare", "header", "server: cloudflare"),
    Signature("Cloudflare", "body", "Attention Required! | Cloudflare"),
    Signature("Akamai", "header", "x-akamai-transformed"),
    Signature("Sucuri", "header", "x-sucuri-id"),
    Signature("Imperva", "body", "Powered by Incapsula"),
    Signature("AWS WAF", "header", "awselb")
  ]

  const NotDetected := "Not Detected"
  const ProbeFailed := "Unknown (Probe Failed)"

  function ProbeUrl(domain: string): string
  {
    "https://" + domain + "/?id=<script>alert(1)</script>"
  }

  function ProbeRequest(opts: Options): Request
  {
    Request(ProbeUrl(opts.domain), map["User-Agent" := opts.userAgent])
  }

  /** The WAF switch knows header and body rules only: a cookie rule, or any other kind, never
      matches. */
  predicate WafDetects(sig: Signature, resp: Response)
  {
    if sig.kind == "header" then HeaderRuleMatches(resp.header, sig.pattern)
    else if sig.kind == "body" then BodyRuleMatches(resp.body, sig.pattern)
    else false
  }

  /** The label of the first rule in `db` that detects `resp`, or "Not Detected". */
  function FirstMatch(db: seq<Signature>, resp: Response): string
  {
    if db == [] then NotDetected
    else if WafDetects(db[0], resp) then db[0].name
    else FirstMatch(db[1..], resp)
  }

  /** `FingerprintWAF`: a request that cannot be built gives "" and an error; a failed request
      gives "Unknown (Probe Failed)" and an error; otherwise the first matching entry's label.
      A 403 or 406 status is only logged. */
  method FingerprintWAF(env: Env, opts: Options) returns (waf: string, failed: bool, ghost probe: Request)
    ensures probe == ProbeRequest(opts)
    ensures env.parse(probe.url).None? ==> waf == "" && failed
    ensures env.parse(probe.url).Some? && env.web(probe).Failed? ==> waf == ProbeFailed && failed
    ensures Do(env, probe).Got? ==> !failed && waf == FirstMatch(WafSignaturesDB, Do(env, probe).resp)
  {
    var req := ProbeRequest(opts);
    probe := req;
    if env.parse(req.url).None? {
      return "", true, probe;
    }
    var o := env.web(req);
    if o.Failed? {
      return ProbeFailed, true, probe;
    }
    var resp := o.resp;
    if resp.status == 403 || resp.status == 406 {
      // a blocking status is only a hint for the log
    }
    for i := 0 to |WafSignaturesDB|
      invariant FirstMatch(WafSignaturesDB[i..], resp) == FirstMatch(WafSignaturesDB, resp)
    {
      var sig := WafSignaturesDB[i];
      var detected := false;
      if sig.kind == "header" {
        detected := ScanHeaders(resp.header, sig.pattern);
      } else if sig.kind == "body" {
        detected := Contains(resp.body, sig.pattern);
      }
      assert WafSignaturesDB[i..][1..] == WafSignaturesDB[i + 1..];
      if detected {
        return sig.name, false, probe;
      }
    }
    return NotDetected, false, probe;
  }

  /** The label is the name of the first entry, in table order, whose rule matches. */
  lemma {:induction false} FirstMatchIsFirst(db: seq<Signature>, resp: Response, i: nat)
    requires i < |db| && WafDetects(db[i], resp)
    requires forall j :: 0 <= j < i ==> !WafDetects(db[j], resp)
    ensures FirstMatch(db, resp) == db[i].name
  {
    if i > 0 {
      FirstMatchIsFirst(db[1..], resp, i - 1);
    }
  }

  /** When no entry matches, the label is "Not Detected". */
  lemma {:induction false} NoMatchNotDetected(db: seq<Signature>, resp: Response)
    requires forall j :: 0 <= j < |db| ==> !WafDetects(db[j], resp)
    ensures FirstMatch(db, resp) == NotDetected
  {
    if db != [] {
      NoMatchNotDetected(db[1..], resp);
    }
  }

  /** The label is "Not Detected" or the name of some entry that matches. */
  lemma {:induction false} FirstMatchSound(db: seq<Signature>, resp: Response)
    ensures FirstMatch(db, resp) == NotDetected
         || exists j :: 0 <= j < |db| && WafDetects(db[j], resp) && db[j].name == FirstMatch(db, resp)
  {
    if db != [] && !WafDetects(db[0], resp) {
      FirstMatchSound(db[1..], resp);
      if FirstMatch(db[1..], resp) != NotDetected {
        var j :| 0 <= j < |db[1..]| && WafDetects(db[1..][j], resp) && db[1..][j].name == FirstMatch(db[1..], resp);
        assert db[j + 1] == db[1..][j];
      }
    }
  }

  /** The status code never changes the label. */
  lemma {:induction false} StatusIgnored(db: seq<Signature>, resp: Response, status: int, text: string)
    ensures FirstMatch(db, resp.(status := status, statusText := text)) == FirstMatch(db, resp)
  {
    if db != [] {
      StatusIgnored(db[1..], resp, status, text);
    }
  }

  /** Cookies never influence the label: the WAF switch has no cookie case. */
  lemma {:induction false} CookiesIgnored(db: seq<Signature>, resp: Response, cookies: seq<string>)
    ensures FirstMatch(db, resp.(cookies := cookies)) == FirstMatch(db, resp)
  {
    if db != [] {
      CookiesIgnored(db[1..], resp, cookies);
    }
  }
}
