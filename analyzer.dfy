/** Response analysis for the fuzzer: a classification in priority order. A WAF block signature
    in the body or the Server header wins; then a blocking status code; then the first SQL error
    pattern in the body; otherwise the payload's reflection and the context it is reflected in. */
module Analyzer {
  import opened Wrappers
  import opened Strs
  import opened Http

  /** A confirmed vulnerability: the payload sent and the evidence seen. */
  datatype Finding = Finding(payload: string, evidence: string)

  /** What one response shows: a finding, a block and its reason, or a reflection and its context. */
  datatype AnalysisResult = AnalysisResult(
    finding: Option<Finding>,
    isBlocked: bool,
    blockReason: string,
    isReflected: bool,
    reflectionContext: string)

  /** The block signatures by vendor name; Go ranges over this map in no fixed order. */
  const WafBlockSignatures: map<string, string> := map[
    "Cloudflare" := "Attention Required! | Cloudflare",
    "Incapsula" := "Powered by Incapsula",
    "Akamai" := "AkamaiGHost",
    "AWS WAF" := "awselb",
    "Sucuri" := "Sucuri/Cloudproxy"
  ]

  /** The SQL error patterns, tested in this order and case-sensitively. */
  const SqlErrorPatterns: seq<string> := [
    "you have an error in your sql syntax",
    "unclosed quotation mark",
    "supplied argument is not a valid mysql result resource"
  ]

  /** The error `AnalyzeResponse` passes on when the body cannot be read. */
  const BodyReadError := "error reading response body"

  /** A block signature shows in the body or in the Server header. */
  predicate SignatureShows(resp: Response, pattern: string)
  {
    Contains(resp.body, pattern) || Contains(HeaderGet(resp.header, "Server"), pattern)
  }

  /** Some vendor's block signature shows. */
  predicate WafBlocked(resp: Response)
  {
    exists name :: name in WafBlockSignatures && SignatureShows(resp, WafBlockSignatures[name])
  }

  predicate BlockingStatus(status: int)
  {
    status == 403 || status == 406 || status == 429
  }

  /** The first of `patterns` that occurs in `body`, if any. */
  function FirstContained(patterns: seq<string>, body: string): Option<string>
  {
    if patterns == [] then None
    else if Contains(body, patterns[0]) then Some(patterns[0])
    else FirstContained(patterns[1..], body)
  }

  function Blocked(reason: string): AnalysisResult
  {
    AnalysisResult(None, true, reason, false, "")
  }

  /** A response served as JSON, judged by the trimmed Content-Type. */
  predicate IsJson(resp: Response)
  {
    HasPrefix(TrimSpace(HeaderGet(resp.header, "Content-Type")), "application/json")
  }

  /** The last step: reflected iff the body contains the payload, and then in a JSON or an HTML
      context. */
  function Reflection(resp: Response, payload: string): AnalysisResult
  {
    if Contains(resp.body, payload) then AnalysisResult(None, false, "", true, if IsJson(resp) then "JSON" else "HTML")
    else AnalysisResult(None, false, "", false, "")
  }

  /** `a` is an analysis of `resp` for `payload`: each rule applies only when every earlier one
      did not, and with several block signatures showing any of their vendors may be named. */
  ghost predicate IsAnalysisOf(resp: Response, payload: string, a: AnalysisResult)
  {
    if WafBlocked(resp) then
      exists name :: name in WafBlockSignatures && SignatureShows(resp, WafBlockSignatures[name])
                  && a == Blocked("Request blocked by " + name)
    else if BlockingStatus(resp.status) then
      a == Blocked("Request blocked with status code " + resp.statusText)
    else if FirstContained(SqlErrorPatterns, resp.body).Some? then
      a == AnalysisResult(Some(Finding(payload, "SQL Error: " + FirstContained(SqlErrorPatterns, resp.body).value)),
                          false, "", false, "")
    else a == Reflection(resp, payload)
  }

  lemma {:induction false} FirstContainedAt(patterns: seq<string>, body: string, i: int)
    requires 0 <= i < |patterns| && Contains(body, patterns[i])
    requires forall j :: 0 <= j < i ==> !Contains(body, patterns[j])
    ensures FirstContained(patterns, body) == Some(patterns[i])
  {
    if i > 0 {
      assert !Contains(body, patterns[0]);
      FirstContainedAt(patterns[1..], body, i - 1);
    }
  }

  lemma {:induction false} FirstContainedNone(patterns: seq<string>, body: string)
    requires forall j :: 0 <= j < |patterns| ==> !Contains(body, patterns[j])
    ensures FirstContained(patterns, body) == None
  {
    if patterns != [] {
      assert !Contains(body, patterns[0]);
      FirstContainedNone(patterns[1..], body);
    }
  }

  /** `AnalyzeResponse`: an unreadable body is an error; otherwise the classification. */
  method AnalyzeResponse(resp: Response, payloadContent: string) returns (r: Result<AnalysisResult>)
    ensures resp.bodyErr <==> r.Err?
    ensures r.Ok? ==> IsAnalysisOf(resp, payloadContent, r.value)
  {
    if resp.bodyErr {
      return Err(BodyReadError);
    }
    var body := resp.body;
    var remaining := WafBlockSignatures.Keys;
    while remaining != {}
      invariant remaining <= WafBlockSignatures.Keys
      invariant forall name :: name in WafBlockSignatures && name !in remaining
                  ==> !SignatureShows(resp, WafBlockSignatures[name])
      decreases |remaining|
    {
      var name :| name in remaining;
      var pattern := WafBlockSignatures[name];
      if Contains(body, pattern) || Contains(HeaderGet(resp.header, "Server"), pattern) {
        return Ok(Blocked("Request blocked by " + name));
      }
      remaining := remaining - {name};
    }
    if resp.status == 403 || resp.status == 406 || resp.status == 429 {
      return Ok(Blocked("Request blocked with status code " + resp.statusText));
    }
    for i := 0 to |SqlErrorPatterns|
      invariant forall j :: 0 <= j < i ==> !Contains(body, SqlErrorPatterns[j])
    {
      var pattern := SqlErrorPatterns[i];
      if Contains(body, pattern) {
        FirstContainedAt(SqlErrorPatterns, body, i);
        return Ok(AnalysisResult(Some(Finding(payloadContent, "SQL Error: " + pattern)), false, "", false, ""));
      }
    }
    FirstContainedNone(SqlErrorPatterns, body);
    var result := AnalysisResult(None, false, "", false, "");
    if Contains(body, payloadContent) {
      result := result.(isReflected := true);
      if HasPrefix(TrimSpace(HeaderGet(resp.header, "Content-Type")), "application/json") {
        result := result.(reflectionContext := "JSON");
      } else {
        result := result.(reflectionContext := "HTML");
      }
    }
    return Ok(result);
  }

  /** A blocked response carries no finding and no reflection; an unblocked one no reason. */
  lemma BlockedExcludesTheRest(resp: Response, payload: string, a: AnalysisResult)
    requires IsAnalysisOf(resp, payload, a)
    ensures a.isBlocked <==> WafBlocked(resp) || BlockingStatus(resp.status)
    ensures a.isBlocked ==> a.finding.None? && !a.isReflected && a.reflectionContext == ""
    ensures !a.isBlocked ==> a.blockReason == ""
    ensures a.finding.Some? ==> !a.isReflected && a.finding.value.payload == payload
  {
  }

  /** Only the vendor named for a WAF block is left open: every other analysis is determined. */
  lemma AnalysisDeterminedUnlessWaf(resp: Response, payload: string, a: AnalysisResult, b: AnalysisResult)
    requires IsAnalysisOf(resp, payload, a) && IsAnalysisOf(resp, payload, b)
    ensures !WafBlocked(resp) ==> a == b
    ensures WafBlocked(resp) ==> a.isBlocked && b.isBlocked && a.finding == b.finding
  {
  }

  /** An SQL error in the body is not reported when the status already blocks. */
  lemma StatusBeatsSqlError(resp: Response, payload: string, a: AnalysisResult)
    requires IsAnalysisOf(resp, payload, a)
    requires resp.status == 429
    ensures a.finding.None? && a.isBlocked
  {
  }

  /** The evidence names the SQL pattern that comes first in the list among those in the body. */
  lemma {:induction false} EvidenceIsFirstPattern(patterns: seq<string>, body: string)
    requires FirstContained(patterns, body).Some?
    ensures exists i :: 0 <= i < |patterns| && patterns[i] == FirstContained(patterns, body).value
                     && Contains(body, patterns[i])
                     && forall j :: 0 <= j < i ==> !Contains(body, patterns[j])
  {
    if !Contains(body, patterns[0]) {
      EvidenceIsFirstPattern(patterns[1..], body);
      var i :| 0 <= i < |patterns[1..]| && patterns[1..][i] == FirstContained(patterns[1..], body).value
              && Contains(body, patterns[1..][i])
              && forall j :: 0 <= j < i ==> !Contains(body, patterns[1..][j]);
      assert patterns[i + 1] == patterns[1..][i];
      forall j | 0 <= j < i + 1
        ensures !Contains(body, patterns[j])
      {
        if j > 0 {
          assert patterns[j] == patterns[1..][j - 1];
        }
      }
    } else {
      assert patterns[0] == FirstContained(patterns, body).value;
    }
  }

  /** The reflection context is "JSON" exactly for a reflected payload in a JSON response. */
  lemma JsonContext(resp: Response, payload: string, a: AnalysisResult)
    requires IsAnalysisOf(resp, payload, a)
    requires !WafBlocked(resp) && !BlockingStatus(resp.status) && FirstContained(SqlErrorPatterns, resp.body).None?
    ensures a.reflectionContext == "JSON" <==> Contains(resp.body, payload) && IsJson(resp)
    ensures a.isReflected <==> Contains(resp.body, payload)
  {
  }
}
