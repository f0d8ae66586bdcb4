# TantraFuzz core, modelled in Dafny

TantraFuzz is a reconnaissance and fuzzing tool for web targets. Its reconnaissance engine works in phases:

1. It enumerates the subdomains of a target domain from crt.sh, AlienVault OTX and an optional AI source.
2. It harvests archived endpoints from the Wayback Machine.
3. It fingerprints technologies and the WAF, collects query-parameter names and, on request, mines JavaScript files for secrets and API paths.
4. It reports subdomains that are new against the baseline stored for the domain, then saves the new result as the baseline.

Beside the engine sit:

- a CORS prober;
- a certificate-transparency stream monitor;
- the fuzzer's response analyser and its payload-file loader;
- a speech-bubble text formatter from the bundled banner utility.

This project models each of these decision and aggregation rules as sequential Dafny code. Each recon, analyser, payload and banner module matches one Go file; `Wrappers`, `Seqs`, `Strs` and `Http` are shared helpers, and `Signatures` holds the matching rules shared by techfingerprint.go and waf.go. Methods keep the Go loops, and each is proved against a specification function or set. Lemmas then prove the properties the code promises about those specifications.

The network and the libraries are one abstract value, `Http.Env`. It carries:

- `web`: the answer to each request;
- `parse`: `url.Parse`, used both for `http.NewRequest` and for the query keys;
- `crtShNames` and `otxHostnames`: the gjson extractions;
- `findAll`: the regex engine, as the matches of a pattern in a body;
- `aiSubdomains`: the AI source's output.

A request whose URL does not parse is a request that cannot be built. Go ranges over maps in no fixed order. The model takes such an order as an arbitrary choice from the key set, and states the results that depend on it as sets or multisets.

Modules:

- `Wrappers`: Option and Result.
- `Seqs`, `Strs`: sequence helpers and the parts of Go's `strings`/`bufio` used by the core.
- `Http`: responses, requests and the network.
- `Model`: the records of `internal/model`.
- `Subdomain`, `Endpoint`, `Params`, `TechFingerprint`, `Waf`, `Signatures`, `Cors`, `JsIntel`, `Monitoring`: the recon package's files. `Signatures` holds the header, cookie and body rules shared by the technology and WAF matchers.
- `Recon`: the engine and the change detector.
- `Storage`: the baseline store.
- `Analyzer`, `Payload`, `Bubble`: the remaining core files.

## Model

| member | source | states |
|---|---|---|
| `Recon.DiffStringSlices` | internal/recon/recon.go:159-171 | the loop's result is `Diff(old, neu)`: the elements of `neu` absent from `old`, in `neu`'s order |
| `Recon.DiffMembership` | internal/recon/recon.go:159-171 | an element is in the report iff it is in `neu` and not in `old` (both directions) |
| `Recon.DiffMultiplicity` | internal/recon/recon.go:165-169 | repeats are kept: a new element is reported as often as it occurs in `neu`; an old one never is |
| `Recon.DiffAgainstEmpty` | internal/recon/recon.go:160-170 | against an empty baseline everything is reported, in order |
| `Recon.DiffAgainstItself` | internal/recon/recon.go:160-170 | a list compared with itself gives an empty report |
| `Recon.DiffDisjointAndShorter` | internal/recon/recon.go:160-170 | the report shares no element with the baseline and is never longer than the new list |
| `Recon.AllHintsMember` | internal/recon/recon.go:120-122 | a path is among the collected APIs iff some JS finding lists it among its endpoint hints |
| `Recon.AppendHints` | internal/recon/recon.go:120-122 | the APIs become the old APIs followed by every finding's hints, in finding order |
| `Recon.AnalyseEndpoints` | internal/recon/recon.go:83-127 | phase 3 writes only technologies, WAF, parameters, JS findings and APIs. Technologies are the distinct names detected on the first five endpoints. The WAF field holds the probe's label. Parameters are the distinct query keys, or none on cancellation. JS findings and hint-extended APIs appear only with DeepJS |
| `Recon.Engine.constructor` | internal/recon/recon.go:40-60 | the new engine keeps its options, AI flag and store; its result holds the timestamp and the domain, and every collection is empty |
| `Recon.Engine.Start` | internal/recon/recon.go:63-147 | see the list below this table |
| `Subdomain.GetSubdomainsFromCrtSh` | internal/recon/subdomain.go:72-97 | every `name_value` is split on newlines, and a piece is kept iff it ends in "." + domain, so never the bare domain. A failed request, a non-200 status or an unreadable body emits nothing |
| `Subdomain.GetSubdomainsFromOtx` | internal/recon/subdomain.go:100-120 | the OTX hostnames are emitted unfiltered; a failed fetch emits nothing |
| `Subdomain.Deduplicate` | internal/recon/subdomain.go:51-66 | the result has no duplicates and is, as a set, the channel's items with one leading "*." removed |
| `Subdomain.EnumerateSubdomains` | internal/recon/subdomain.go:20-69 | duplicate-free, and as a set the trimmed union of the crt.sh, OTX and (with AiAssist and a client) AI outputs. Without the AI source, its output plays no part |
| `Subdomain.TrimsOneWildcard` | internal/recon/subdomain.go:54 | exactly one leading "*." is removed |
| `Subdomain.SharedReportsMergeOnce` | internal/recon/subdomain.go:51-61 | names reported by two sources without a wildcard are merged into one set entry each |
| `Endpoint.GetEndpointsFromWayback` | internal/recon/endpoint.go:52-83 | a 200 answer emits exactly the non-empty lines of its body, in order; any other answer emits nothing |
| `Endpoint.NothingEmptyHarvested` | internal/recon/endpoint.go:73-82 | no harvested endpoint is the empty string |
| `Endpoint.EnumerateEndpoints` | internal/recon/endpoint.go:16-49 | the result is duplicate-free, equals as a set the union of lines emitted for all subdomains, contains no empty string, and is empty for no subdomains |
| `Params.AddKeys` | internal/recon/params.go:23-30 | the inner loop adds every query key of one endpoint to the set |
| `Params.DiscoverParameters` | internal/recon/params.go:10-38 | an error iff cancellation is seen before some endpoint, and then the context's error. Otherwise a duplicate-free list holding a name iff it is a query key of a parseable endpoint, and empty when no endpoint has a query |
| `TechFingerprint.MatchResponse` | internal/recon/techfingerprint.go:73-99 | the names added for one response are exactly those of the rules that match it |
| `TechFingerprint.FingerprintTechnologies` | internal/recon/techfingerprint.go:32-111 | only the first min(5, n) URLs are probed, and none for an empty list. The result is duplicate-free and is the set of names of rules matched by some probed, answered URL |
| `TechFingerprint.Probed` | internal/recon/techfingerprint.go:41-46 | the probed URLs are a prefix of the input of length at most five |
| `TechFingerprint.DetectedSnoc` | internal/recon/techfingerprint.go:94-98 | one more probe adds exactly its response's matching names to the set; a failed request adds none |
| `TechFingerprint.LaterUrlsIgnored` | internal/recon/techfingerprint.go:41-46 | URLs after the fifth never change the result |
| `TechFingerprint.UnknownKindNeverMatches` | internal/recon/techfingerprint.go:75-93 | a rule whose type is not header, cookie or body never matches |
| `Signatures.ScanHeaders` | internal/recon/techfingerprint.go:76-82 | found iff some lowercased "name: v1,v2" header line contains the lowercased pattern |
| `Signatures.ScanCookies` | internal/recon/techfingerprint.go:83-88 | found iff some cookie name equals the pattern ignoring case |
| `Signatures.CookieMatchIsExact` | internal/recon/techfingerprint.go:83-88 | a cookie whose name only starts with the pattern does not match |
| `Waf.FingerprintWAF` | internal/recon/waf.go:27-76 | the probe is the fixed XSS URL on the domain. An unbuildable request gives "" and an error, an unanswered one "Unknown (Probe Failed)" and an error, and an answered one the first matching entry's name |
| `Waf.FirstMatchIsFirst` | internal/recon/waf.go:55-73 | the label is the name of the first entry in table order whose rule matches |
| `Waf.NoMatchNotDetected` | internal/recon/waf.go:75 | no matching entry gives "Not Detected" |
| `Waf.FirstMatchSound` | internal/recon/waf.go:55-75 | the label is "Not Detected" or the name of an entry that matches |
| `Waf.StatusIgnored` | internal/recon/waf.go:49-53 | the status code never changes the label |
| `Waf.CookiesIgnored` | internal/recon/waf.go:57-69 | cookies never change the label: only header and body rules are checked |
| `Cors.DistinctKeys` | internal/recon/cors.go:20-31 | the kept keys are duplicate-free and are exactly the scheme://host of the endpoints whose request can be built |
| `Cors.CheckCORS` | internal/recon/cors.go:14-68 | one probe per distinct key, at the key URL, with Origin https://evil.com and the user agent. The findings are, up to order, one "VULNERABLE: [host] - …" line per answered probe whose ACAO value is the hostile origin or "*" |
| `Cors.NoDupCard` | internal/recon/cors.go:27-30 | a duplicate-free key list has as many entries as distinct keys, so one probe per key |
| `Cors.FindingsAreVulnerable` | internal/recon/cors.go:41-57 | every finding comes from an answered probe whose ACAO value is vulnerable and names that probe's URL and value |
| `Cors.TwoHostsTwoProbes` | internal/recon/cors.go:26-30 | two endpoints on one host and one on another give two probes |
| `JsIntel.JsFiles` | internal/recon/jsintel.go:26-31 | an endpoint is mined iff it ends in ".js" |
| `JsIntel.SelectJsFiles` | internal/recon/jsintel.go:26-31 | the filter loop keeps the ".js" endpoints in order |
| `JsIntel.SecretNamesAreTheKeys` | internal/recon/jsintel.go:15-21 | the secret table's key list names each key once |
| `JsIntel.SharedPatternCountedTwice` | internal/recon/jsintel.go:15-17 | the Google and Firebase entries share one pattern, so each of its matches appears among the secrets at least twice |
| `JsIntel.CollectSecrets` | internal/recon/jsintel.go:62-71 | the secrets are, up to order, the matches of every secret pattern concatenated |
| `JsIntel.CollectHints` | internal/recon/jsintel.go:72-78 | each endpoint hint is one regex match with surrounding quotes and spaces trimmed, in match order |
| `JsIntel.AnalyzeScript` | internal/recon/jsintel.go:44-85 | a finding iff the script answers 200 and has a secret or a hint; the finding carries the script URL, its secrets and its hints |
| `JsIntel.MineJavaScript` | internal/recon/jsintel.go:25-95 | only ".js" endpoints are fetched. There is at most one finding per script, each for a fetched script and non-empty. The findings are those `AnalyzeScript` gives, in script order |
| `JsIntel.NonEmptyFinding` | internal/recon/jsintel.go:80-84 | an emitted finding names its script and has secrets or hints |
| `Monitoring.ProcessDiscoveredSubdomain` | internal/recon/monitoring.go:60-70 | announced iff there is no baseline (a read error included) or the name is not among its subdomains |
| `Monitoring.FirstCancel` | internal/recon/monitoring.go:20-24 | the index of the first attempt that sees cancellation, or the trace length |
| `Monitoring.HandleMessage` | internal/recon/monitoring.go:44-53 | a message other than a certificate update is ignored. Each candidate name reads the baseline once and is announced as `Announced` states |
| `Monitoring.ReadUntilError` | internal/recon/monitoring.go:33-55 | one connection announces the candidates of all its messages, in order, until the read error |
| `Monitoring.StartMonitoring` | internal/recon/monitoring.go:17-58 | the monitor stops iff some attempt sees cancellation. Before that it waits once per dial failure, each wait the same 15 seconds, and announces the candidates of every connection before that, in order, each against a fresh baseline read |
| `Monitoring.AnnouncedAppend` | internal/recon/monitoring.go:48-52 | announcing two candidate runs in turn is announcing their concatenation |
| `Monitoring.BareAndWildcardExcluded` | internal/recon/monitoring.go:48-52 | neither the bare domain nor a wildcard name is a candidate |
| `Monitoring.AnnouncedAreCandidates` | internal/recon/monitoring.go:48-52 | only candidates are ever announced |
| `Monitoring.CandidatesInAreCandidates` | internal/recon/monitoring.go:48-52 | a candidate of a message ends in "." + domain, has no "*." prefix and is among the message's names |
| `Monitoring.KnownNeverAnnounced` | internal/recon/monitoring.go:60-70 | a name in every baseline read is never announced |
| `Monitoring.AnnouncedTwice` | internal/recon/monitoring.go:48-52 | without a baseline, a name listed twice in one message is announced twice: there is no dedup within a session |
| `Monitoring.ReadErrorAnnounces` | internal/recon/monitoring.go:61 | a failed baseline read announces even a known name |
| `Monitoring.ConnectedPassesNeverSleep` | internal/recon/monitoring.go:26-42 | connections that end in a read error cause no sleep |
| `Analyzer.AnalyzeResponse` | internal/analyzer/analyzer.go:41-89 | an unreadable body is an error. Otherwise the result is an analysis of the response in priority order (see `IsAnalysisOf`): WAF signature, then status 403/406/429, then the first SQL pattern, then reflection |
| `Analyzer.FirstContainedAt` | internal/analyzer/analyzer.go:67-75 | the SQL evidence is the first pattern in list order that the body contains |
| `Analyzer.FirstContainedNone` | internal/analyzer/analyzer.go:67-75 | no pattern found gives no SQL finding |
| `Analyzer.EvidenceIsFirstPattern` | internal/analyzer/analyzer.go:67-75 | a reported pattern occurs in the body, and no earlier one does |
| `Analyzer.BlockedExcludesTheRest` | internal/analyzer/analyzer.go:52-75 | blocked iff a WAF signature shows or the status blocks. A blocked result has no finding and no reflection, an unblocked one no reason, and a finding carries the payload and no reflection |
| `Analyzer.AnalysisDeterminedUnlessWaf` | internal/analyzer/analyzer.go:52-58 | the analysis is unique except for which WAF vendor is named when several signatures show |
| `Analyzer.StatusBeatsSqlError` | internal/analyzer/analyzer.go:60-75 | with status 429, an SQL error in the body is not reported |
| `Analyzer.JsonContext` | internal/analyzer/analyzer.go:78-86 | reflected iff the body contains the payload; the context is "JSON" iff reflected and the trimmed Content-Type starts with application/json |
| `Payload.LoadPayloads` | internal/payload/loader.go:22-96 | "xss" gives the not-implemented error, any other type except "sqli" the unknown-type error. For "sqli", a missing file, an open failure or a scanner error is an error; otherwise the payloads parsed from the file's lines |
| `Payload.ParseTokens` | internal/payload/loader.go:51-89 | the scanner loop's payloads are `ParseFrom(lines, no metadata)` |
| `Payload.ParseStep` | internal/payload/loader.go:51-89 | one line of the scanner loop: skipped when blank, a metadata update for "#", a payload and a reset otherwise |
| `Payload.ReadComment` | internal/payload/loader.go:59-75 | a comment line updates the current metadata as `ApplyComment` states |
| `Payload.PayloadCount` | internal/payload/loader.go:79-85 | one payload per non-empty, non-"#" line |
| `Payload.ContentsAreTrimmedPayloadLines` | internal/payload/loader.go:52-56 | a payload's content is a trimmed input line, non-empty, not a comment, with no surrounding space |
| `Payload.PayloadLineAt` | internal/payload/loader.go:52-85 | a payload's content is the trimmed form of some input line |
| `Payload.ResetAfterPayload` | internal/payload/loader.go:88 | after a payload the metadata starts empty again |
| `Payload.LaterCommentOverrides` | internal/payload/loader.go:59-75 | a later comment with the same key overrides an earlier one |
| `Payload.OtherCommentsIgnored` | internal/payload/loader.go:59-75 | a comment with no colon, or a key other than source, target and purpose, changes nothing |
| `Payload.MetadataAttaches` | internal/payload/loader.go:52-85 | the comment lines before a payload line, with any blank lines among them skipped, give that payload its metadata |
| `Bubble.FormatMessageInBubble` | main.go:109-158 | a message with no words gives ""; otherwise the bubble of the greedily wrapped words |
| `Bubble.WrapWords` | main.go:119-134 | the wrapping loop produces `Wrap(words)` and the length of its longest line |
| `Bubble.DrawBubble` | main.go:136-157 | the top edge, one padded row per line with its borders, and the bottom edge |
| `Bubble.MaxLenIsMax` | main.go:123-125 | no line is longer than `longestLine`, and some line is that long |
| `Bubble.WrapPreservesText` | main.go:119-131 | the wrapped lines, joined with single spaces, are the words joined with single spaces |
| `Bubble.WrapKeepsWords` | main.go:119-131 | the same for the wrap from any partial line |
| `Bubble.WrapLinesFitOrSingleWord` | main.go:120-130 | every line fits the width or is a single word of the message |
| `Bubble.WrappedLinesFit` | main.go:120-130 | a line holding more than its first word fits the width |
| `Bubble.RowWidth` | main.go:142-153 | every row is `longestLine + 5` characters, counting the newline |
| `Bubble.RowsWidth` | main.go:142-153 | k rows take k times that width |
| `Storage.Store.constructor` | internal/storage/storage.go:16-23 | a new store holds no entries |
| `Storage.Store.SaveResult` | internal/storage/storage.go:29-39 | the result replaces the entry under its domain, unless the write fails and nothing changes |
| `Storage.Store.GetPreviousResult` | internal/storage/storage.go:41-60 | a missing key is no result and no error; a failed read is no result and an error |
| `Storage.ReadAfterSave` | internal/storage/storage.go:29-60 | a saved result is what the next read of its domain returns; other domains keep theirs |
| `Storage.LaterSaveWins` | internal/storage/storage.go:29-39 | of two saves under one domain only the later is kept |

**`Recon.Engine.Start`, in order:**

1. The subdomains are replaced by the enumeration.
2. With none found, `Start` returns before doing anything else: no endpoints, no report, no save.
3. Otherwise the endpoints are the harvested set.
4. Phase 3 runs, as `EndpointsAnalysed` states, only on a non-empty endpoint list.
5. The change report is `Diff(baseline, subdomains)`, present iff the baseline read succeeded and found an entry.
6. The result is saved last, and a failed save changes nothing.
7. Timestamp, CORS and smuggling fields are untouched.

## Left out

- **Concurrency.** Goroutines, wait groups, semaphores, `sync.Map` and channels are sequentialised. Each channel's contents are one concatenation of its producers' outputs. The contracts are sets, so among runs that finish the interleaving does not matter.
- **Runs that do not finish.** The contracts describe runs that finish; the sequential model always does, the Go code need not:
  - `EnumerateEndpoints` (internal/recon/endpoint.go:18-24, 78) can deadlock. With more subdomains than `Concurrency`, the launch loop waits on the semaphore while the running workers wait to send on `endpointChan`. That channel holds 5000 lines and is drained only after the launch loop ends, so once more than 5000 lines are pending nothing moves.
  - With `Concurrency == 0` the first semaphore send blocks forever in `EnumerateEndpoints`, `FingerprintTechnologies`, `MineJavaScript` and `CheckCORS` (endpoint.go:24, techfingerprint.go:48, jsintel.go:42, cors.go:33).
  - A negative `Concurrency` makes `make` panic (endpoint.go:20, jsintel.go:38, techfingerprint.go:39, cors.go:19). The phase-3 goroutines all write the shared result; that data race is modelled as the four analyses running one after another in source order.
- `JsIntel.MineJavaScript`: the findings are stated in script order. The program collects them from a channel in completion order, so the true promise is "some permutation of these findings".
- `Cors.CheckCORS`: findings are stated only up to order, for the same reason.
- `JsIntel.CollectSecrets`: the secrets are stated up to multiset, because the program ranges over the secret table in map order.
- **Execution and I/O.** Logging, verbose output, `SaveOutput`, `rainbow`, `main()` and the command-line front ends (cmd/...) are left out; none of them decides anything the core computes.
- **Network and library calls** are parameters of `Http.Env`:
  - HTTP and WebSocket transport, and `io.ReadAll`;
  - gjson extraction;
  - the regex engine;
  - `url.Parse`, `Query()` and `http.NewRequest`.

  A body-read failure is an input flag, and an unreadable body is treated like a failed request where the code returns.
- **AI source.** The AI client (internal/api/gemini.go) and `generateSubdomainsWithAI` are not part of this model. The AI source's output is a given sequence, used only when AiAssist is set and a client exists.
- **Other files.** The fuzzer loop (internal/fuzzer/fuzzer.go) is not part of this model. It calls `AnalyzeResponse` with three arguments and reads a `Payload` field `AnalysisResult` does not have, so it does not match the analyser it calls. internal/context/loader.go only reads a JSON file and is left out. internal/model/models.go is mirrored as datatypes.
- **Storage.** The badger database and its JSON encoding are a map from domain to result, with the encoding round-trip taken as the identity. Read and write failures are boolean parameters.
- **Time.** `time.Now` is a parameter of the engine constructor. The 15-second reconnect sleep is recorded as a wait of `RetryDelaySeconds` per failed dial; no clock passes. The stream URL (wss://certstream.calidog.io/) is not modelled: each dial's outcome is an input.
- **Monitor.** The stream monitor runs over a finite trace of dial attempts, so the unbounded retry loop is modelled only up to the trace's end. Each baseline read is an input indexed by read count.
- **Strings.** Case folding (`strings.ToLower`, `EqualFold`) is ASCII only, and `TrimSpace`/`Fields` know only ASCII white space. String length is counted in characters, which equals Go's byte length for ASCII text. `bufio.Scanner`'s 64 KiB token limit is not modelled.
- `Strs.ToLower`: its contract states only that the length is kept; its meaning is the body's character-by-character ASCII fold.
- `Analyzer.AnalyzeResponse`: the body-read error is the fixed text `BodyReadError` rather than the wrapped library error.
- `Payload.LoadPayloads`: the files a `PayloadFile` describes are given as an input function, and the errors are their fixed messages.

**Behaviour worth noting:**

- `Start` never calls `CheckCORS` (internal/recon/recon.go:63-147), so the result's CORS field stays as it was. `CheckCORS` is modelled on its own.
- The monitor sleeps only after a failed dial (internal/recon/monitoring.go:27-30). A read error closes the connection and breaks back to the top of the loop with no sleep (internal/recon/monitoring.go:38-41).
