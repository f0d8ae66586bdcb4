/** Script mining: fetch every endpoint ending in ".js", apply the secret and endpoint-hint
    patterns, and report a file when anything matched. The regular-expression engine is the
    environment's `findAll`. */
module JsIntel {
  import opened Seqs
  import opened Strs
  import opened Http
  import opened Model

  const AizaPattern := "AIza[0-9A-Za-z-_]{35}"

  /** The secret patterns by name; Google and Firebase keys share one pattern. */
  const SecretRegexDB: map<string, string> := map[
    "Google API Key" := AizaPattern,
    "Firebase API Key" := AizaPattern,
    "AWS Access Key ID" := "AKIA[0-9A-Z]{16}",
    "Generic API Key" := @"(?i)(api_key|apikey|api-key)\s*[:=]\s*['""]([a-zA-Z0-9-_]+)['""]",
    "JWT Token" := @"ey[A-Za-z0-9-_=]+\.[A-Za-z0-9-_=]+\.[A-Za-z0-9-_.+/=]*"
  ]

  /** The names of SecretRegexDB listed once, in declaration order. */
  const SecretNames: seq<string> :=
    ["Google API Key", "Firebase API Key", "AWS Access Key ID", "Generic API Key", "JWT Token"]

  const EndpointRegex := @"['""](/api/|/v[1-9]/|/graphql|/users|/auth)[^'""]*['""]"

  /** The characters `strings.Trim(match, "'\" ")` removes from both ends of a hint. */
  const HintCutset: set<char> := {'\'', '"', ' '}

  predicate IsJsFile(endpoint: string)
  {
    HasSuffix(endpoint, ".js")
  }

  /** The endpoints ending in ".js", in order. */
  function JsFiles(endpoints: seq<string>): (r: seq<string>)
    ensures forall u :: u in r <==> u in endpoints && IsJsFile(u)
  {
    if endpoints == [] then []
    else
      var last := endpoints[|endpoints| - 1];
      JsFiles(endpoints[..|endpoints| - 1]) + (if IsJsFile(last) then [last] else [])
  }

  function ScriptRequest(url: string, userAgent: string): Request
  {
    Request(url, map["User-Agent" := userAgent])
  }

  /** The matches, in a body, of the pattern that `db` stores under a name. */
  function Matcher(findAll: (string, string) -> seq<string>, body: string, db: map<string, string>): string -> seq<string>
  {
    name => findAll(if name in db then db[name] else "", body)
  }

  /** The secrets of a body: every match of every secret pattern. Go ranges over the map in no
      fixed order, so only the multiset of the secrets is determined; this takes declaration order. */
  function Secrets(findAll: (string, string) -> seq<string>, body: string): seq<string>
  {
    ConcatMap(Matcher(findAll, body, SecretRegexDB), SecretNames)
  }

  /** The endpoint hints: every endpoint-pattern match with quotes and spaces trimmed. */
  function Hints(findAll: (string, string) -> seq<string>, body: string): (r: seq<string>)
  {
    var ms := findAll(EndpointRegex, body);
    seq(|ms|, i requires 0 <= i < |ms| => TrimSet(ms[i], HintCutset))
  }

  /** One script produces a finding iff it was fetched with status 200, its body was read, and
      some secret or hint matched. */
  predicate Emits(env: Env, userAgent: string, url: string)
  {
    var o := Do(env, ScriptRequest(url, userAgent));
    FetchedOk(o) && (|Secrets(env.findAll, o.resp.body)| > 0 || |Hints(env.findAll, o.resp.body)| > 0)
  }

  /** `f` is the finding for script `url`: its URL, its secrets up to order, its hints in order. */
  predicate IsFindingFor(env: Env, userAgent: string, url: string, f: JSFinding)
  {
    var o := Do(env, ScriptRequest(url, userAgent));
    && o.Got?
    && f.fileUrl == url
    && multiset(f.secrets) == multiset(Secrets(env.findAll, o.resp.body))
    && f.endpoints == Hints(env.findAll, o.resp.body)
  }

  /** `findings` holds, in script order, exactly one finding per emitting script of `urls`. */
  ghost predicate FindingsFor(env: Env, userAgent: string, urls: seq<string>, findings: seq<JSFinding>)
    decreases |urls|
  {
    if urls == [] then findings == []
    else
      var u := urls[|urls| - 1];
      if Emits(env, userAgent, u) then
        && findings != []
        && IsFindingFor(env, userAgent, u, findings[|findings| - 1])
        && FindingsFor(env, userAgent, urls[..|urls| - 1], findings[..|findings| - 1])
      else FindingsFor(env, userAgent, urls[..|urls| - 1], findings)
  }

  lemma SecretNamesAreTheKeys()
    ensures Elems(SecretNames) == SecretRegexDB.Keys
    ensures NoDup(SecretNames)
  {
  }

  /** Because Google and Firebase keys share a pattern, every such key is reported at least twice. */
  lemma SharedPatternCountedTwice(findAll: (string, string) -> seq<string>, body: string, key: string)
    ensures multiset(Secrets(findAll, body))[key] >= 2 * multiset(findAll(AizaPattern, body))[key]
  {
    var f := Matcher(findAll, body, SecretRegexDB);
    var g := findAll(AizaPattern, body);
    var rest := ["AWS Access Key ID", "Generic API Key", "JWT Token"];
    assert SecretNames == ["Google API Key"] + ["Firebase API Key"] + rest;
    assert f("Google API Key") == g && f("Firebase API Key") == g by {
      assert SecretRegexDB["Google API Key"] == AizaPattern;
      assert SecretRegexDB["Firebase API Key"] == AizaPattern;
    }
    ConcatMapAppend(f, ["Google API Key"] + ["Firebase API Key"], rest);
    ConcatMapAppend(f, ["Google API Key"], ["Firebase API Key"]);
    ConcatMapSingleton(f, "Google API Key");
    ConcatMapSingleton(f, "Firebase API Key");
    assert Secrets(findAll, body) == g + g + ConcatMap(f, rest);
  }

  /** The loop over the secret-pattern map `db`, whose keys `names` lists once each: whatever
      order the map is ranged over, the matches are those of every pattern, up to order. */
  method CollectSecrets(findAll: (string, string) -> seq<string>, body: string, db: map<string, string>,
                        ghost names: seq<string>)
    returns (secrets: seq<string>)
    requires NoDup(names) && Elems(names) == db.Keys
    ensures multiset(secrets) == multiset(ConcatMap(Matcher(findAll, body, db), names))
  {
    secrets := [];
    var remaining := db.Keys;
    ghost var order: seq<string> := [];
    while remaining != {}
      invariant Elems(order) + remaining == db.Keys
      invariant Elems(order) !! remaining
      invariant NoDup(order)
      invariant secrets == ConcatMap(Matcher(findAll, body, db), order)
      decreases |remaining|
    {
      var name :| name in remaining;
      var matches := findAll(db[name], body);
      assert matches == Matcher(findAll, body, db)(name);
      DrainStep(order, remaining, db.Keys, name);
      ConcatMapSnoc(Matcher(findAll, body, db), order, name);
      secrets := secrets + matches;
      order := order + [name];
      remaining := remaining - {name};
    }
    ConcatMapPermutation(Matcher(findAll, body, db), order, names);
  }

  /** The loop that trims every endpoint-pattern match. */
  method CollectHints(findAll: (string, string) -> seq<string>, body: string) returns (hints: seq<string>)
    ensures hints == Hints(findAll, body)
  {
    hints := [];
    var matches := findAll(EndpointRegex, body);
    for i := 0 to |matches|
      invariant hints == seq(i, j requires 0 <= j < i => TrimSet(matches[j], HintCutset))
    {
      hints := hints + [TrimSet(matches[i], HintCutset)];
    }
  }

  /** The goroutine for one script: fetch it, collect secrets and hints, and report if any. */
  method AnalyzeScript(env: Env, userAgent: string, url: string) returns (f: Wrappers.Option<JSFinding>)
    ensures f.Some? <==> Emits(env, userAgent, url)
    ensures f.Some? ==> IsFindingFor(env, userAgent, url, f.value)
  {
    var o := Do(env, ScriptRequest(url, userAgent));
    if o.Failed? || o.resp.status != 200 || o.resp.bodyErr {
      return Wrappers.None;
    }
    var body := o.resp.body;
    SecretNamesAreTheKeys();
    var foundSecrets := CollectSecrets(env.findAll, body, SecretRegexDB, SecretNames);
    var foundEndpoints := CollectHints(env.findAll, body);
    assert |foundSecrets| == |multiset(foundSecrets)|;
    assert |foundSecrets| == |Secrets(env.findAll, body)|;
    if |foundSecrets| > 0 || |foundEndpoints| > 0 {
      f := Wrappers.Some(JSFinding(url, foundSecrets, foundEndpoints));
    } else {
      f := Wrappers.None;
    }
  }

  /** The first loop of `MineJavaScript`: the endpoints ending in ".js", in order. */
  method SelectJsFiles(endpoints: seq<string>) returns (jsFiles: seq<string>)
    ensures jsFiles == JsFiles(endpoints)
  {
    jsFiles := [];
    for i := 0 to |endpoints|
      invariant jsFiles == JsFiles(endpoints[..i])
    {
      assert endpoints[..i + 1][..i] == endpoints[..i];
      if HasSuffix(endpoints[i], ".js") {
        jsFiles := jsFiles + [endpoints[i]];
      }
    }
    assert endpoints[..|endpoints|] == endpoints;
  }

  /** `MineJavaScript`: only ".js" endpoints are fetched (none at all when there are none); each
      gives at most one finding, for its own URL, and only when something matched. */
  method MineJavaScript(env: Env, userAgent: string, endpoints: seq<string>)
    returns (findings: seq<JSFinding>, ghost probes: seq<string>)
    ensures probes == JsFiles(endpoints)
    ensures FindingsFor(env, userAgent, probes, findings)
    ensures |findings| <= |probes|
    ensures forall f :: f in findings ==> f.fileUrl in probes && (|f.secrets| > 0 || |f.endpoints| > 0)
  {
    var jsFiles := SelectJsFiles(endpoints);
    probes := jsFiles;
    if |jsFiles| == 0 {
      return [], probes;
    }
    findings := [];
    for i := 0 to |jsFiles|
      invariant FindingsFor(env, userAgent, jsFiles[..i], findings)
      invariant |findings| <= i
      invariant forall f :: f in findings ==> f.fileUrl in jsFiles && (|f.secrets| > 0 || |f.endpoints| > 0)
    {
      var f := AnalyzeScript(env, userAgent, jsFiles[i]);
      FindingStep(env, userAgent, jsFiles, i, findings, f);
      if f.Some? {
        NonEmptyFinding(env, userAgent, jsFiles[i], f.value);
        findings := findings + [f.value];
      }
    }
    assert jsFiles[..|jsFiles|] == jsFiles;
  }

  /** One script of the mining loop: its finding, if any, follows those of the earlier scripts. */
  lemma FindingStep(env: Env, userAgent: string, urls: seq<string>, i: nat, findings: seq<JSFinding>,
                    f: Wrappers.Option<JSFinding>)
    requires i < |urls|
    requires FindingsFor(env, userAgent, urls[..i], findings)
    requires f.Some? <==> Emits(env, userAgent, urls[i])
    requires f.Some? ==> IsFindingFor(env, userAgent, urls[i], f.value)
    ensures FindingsFor(env, userAgent, urls[..i + 1], if f.Some? then findings + [f.value] else findings)
  {
    assert urls[..i + 1][..i] == urls[..i];
    if f.Some? {
      assert (findings + [f.value])[..|findings|] == findings;
    }
  }

  /** A finding for an emitting script names it and holds a secret or a hint. */
  lemma NonEmptyFinding(env: Env, userAgent: string, url: string, f: JSFinding)
    requires Emits(env, userAgent, url) && IsFindingFor(env, userAgent, url, f)
    ensures f.fileUrl == url && (|f.secrets| > 0 || |f.endpoints| > 0)
  {
    var body := Do(env, ScriptRequest(url, userAgent)).resp.body;
    assert |f.secrets| == |multiset(f.secrets)| == |Secrets(env.findAll, body)|;
  }
}
