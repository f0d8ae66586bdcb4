/** The reconnaissance engine: the scan phases in order, the change report against the stored
    baseline, and the save. The phase-3 goroutines, which the program runs concurrently and which
    all write the shared result, are taken one after another in source order. */
module Recon {
  import opened Wrappers
  import opened Seqs
  import opened Http
  import opened Model
  import opened Storage
  import Subdomain
  import Endpoint
  import Params
  import TechFingerprint
  import Waf
  import JsIntel

  /** The change detector's specification: the elements of `neu` absent from `prior`, in the order
      of `neu`, with repeats. */
  function Diff(prior: seq<string>, neu: seq<string>): seq<string>
  {
    if neu == [] then []
    else
      var x := neu[|neu| - 1];
      Diff(prior, neu[..|neu| - 1]) + (if x in prior then [] else [x])
  }

  /** `diffStringSlices`: a set of the prior elements, then one pass over the new ones. */
  method DiffStringSlices(prior: seq<string>, neu: seq<string>) returns (diff: seq<string>)
    ensures diff == Diff(prior, neu)
  {
    var oldSet: set<string> := {};
    for i := 0 to |prior|
      invariant oldSet == set j | 0 <= j < i :: prior[j]
    {
      oldSet := oldSet + {prior[i]};
    }
    assert forall s :: s in oldSet <==> s in prior by {
      forall s | s in prior
        ensures s in oldSet
      {
        var j :| 0 <= j < |prior| && prior[j] == s;
      }
    }
    diff := [];
    for i := 0 to |neu|
      invariant diff == Diff(prior, neu[..i])
    {
      assert neu[..i + 1][..i] == neu[..i];
      if neu[i] !in oldSet {
        diff := diff + [neu[i]];
      }
    }
    assert neu[..|neu|] == neu;
  }

  /** An element is reported iff it is new and was not there before. */
  lemma {:induction false} DiffMembership(prior: seq<string>, neu: seq<string>, x: string)
    ensures x in Diff(prior, neu) <==> x in neu && x !in prior
  {
    if neu != [] {
      var n := |neu| - 1;
      DiffMembership(prior, neu[..n], x);
      assert neu == neu[..n] + [neu[n]];
    }
  }

  /** Repeats are kept: each new element is reported as often as it occurs in `neu`. */
  lemma {:induction false} DiffMultiplicity(prior: seq<string>, neu: seq<string>, x: string)
    ensures multiset(Diff(prior, neu))[x] == if x in prior then 0 else multiset(neu)[x]
  {
    if neu != [] {
      var n := |neu| - 1;
      DiffMultiplicity(prior, neu[..n], x);
      assert neu == neu[..n] + [neu[n]];
    }
  }

  /** With no baseline everything is new; against itself nothing is. */
  lemma {:induction false} DiffAgainstEmpty(neu: seq<string>)
    ensures Diff([], neu) == neu
  {
    if neu != [] {
      DiffAgainstEmpty(neu[..|neu| - 1]);
      assert neu == neu[..|neu| - 1] + [neu[|neu| - 1]];
    }
  }

  lemma DiffAgainstItself(xs: seq<string>)
    ensures Diff(xs, xs) == []
  {
    if Diff(xs, xs) != [] {
      var x := Diff(xs, xs)[0];
      DiffMembership(xs, xs, x);
      assert false;
    }
  }

  /** The report shares nothing with the baseline, and is never longer than the new list. */
  lemma {:induction false} DiffDisjointAndShorter(prior: seq<string>, neu: seq<string>)
    ensures forall x :: x in Diff(prior, neu) ==> x !in prior
    ensures |Diff(prior, neu)| <= |neu|
  {
    if neu != [] {
      DiffDisjointAndShorter(prior, neu[..|neu| - 1]);
    }
  }

  /** The API paths collected from JS findings: all their endpoint hints, in finding order. */
  function AllHints(findings: seq<JSFinding>): seq<string>
  {
    if findings == [] then []
    else AllHints(findings[..|findings| - 1]) + findings[|findings| - 1].endpoints
  }

  lemma {:induction false} AllHintsMember(findings: seq<JSFinding>, x: string)
    ensures x in AllHints(findings) <==> exists i :: 0 <= i < |findings| && x in findings[i].endpoints
  {
    if findings != [] {
      var n := |findings| - 1;
      AllHintsMember(findings[..n], x);
      if x in AllHints(findings[..n]) {
        var i :| 0 <= i < n && x in findings[..n][i].endpoints;
        assert findings[i] == findings[..n][i];
      }
      if exists i :: 0 <= i < |findings| && x in findings[i].endpoints {
        var i :| 0 <= i < |findings| && x in findings[i].endpoints;
        if i < n {
          assert findings[..n][i] == findings[i];
        }
      }
    }
  }

  /** The label the WAF probe leaves in the result: "" when its request cannot be built, the
      probe-failure label when it is not answered, else the first matching entry. */
  function WafLabel(env: Env, opts: Options): string
  {
    var probe := Waf.ProbeRequest(opts);
    if env.parse(probe.url).None? then ""
    else if env.web(probe).Failed? then Waf.ProbeFailed
    else Waf.FirstMatch(Waf.WafSignaturesDB, Do(env, probe).resp)
  }

  /** `NewEngine`'s result: the clock reading, the domain, everything else empty. */
  function InitialResult(domain: string, now: int): ReconResult
  {
    ReconResult(now, domain, [], [], [], [], [], "", [], [], "")
  }

  /** The state phase 3 leaves behind, starting from `before` with a non-empty endpoint list:
      the technologies, the WAF label and the parameters are replaced; with DeepJS the JS
      findings replace the old ones and their hints are appended to the APIs. */
  ghost predicate EndpointsAnalysed(env: Env, opts: Options, ctx: Params.Ctx, before: ReconResult, after: ReconResult)
  {
    && after == before.(technologies := after.technologies, waf := after.waf,
                        parameters := after.parameters, jsFiles := after.jsFiles, apis := after.apis)
    && NoDup(after.technologies)
    && Elems(after.technologies) == TechFingerprint.DetectedNames(env, TechFingerprint.Probed(before.endpoints))
    && after.waf == WafLabel(env, opts)
    && (Params.CancelledWithin(ctx, |before.endpoints|) ==> after.parameters == [])
    && (!Params.CancelledWithin(ctx, |before.endpoints|) ==>
          NoDup(after.parameters) && Elems(after.parameters) == Params.ParamSet(env.parse, before.endpoints))
    && (opts.deepJS ==>
          JsIntel.FindingsFor(env, opts.userAgent, JsIntel.JsFiles(before.endpoints), after.jsFiles)
          && after.apis == before.apis + AllHints(after.jsFiles))
    && (!opts.deepJS ==> after.jsFiles == before.jsFiles && after.apis == before.apis)
  }

  /** Phase 3 of `Start`: technology and WAF fingerprinting, parameter discovery, and with DeepJS
      the JavaScript mining. A cancelled parameter discovery leaves no parameters. */
  method AnalyseEndpoints(env: Env, opts: Options, ctx: Params.Ctx, before: ReconResult) returns (after: ReconResult)
    ensures EndpointsAnalysed(env, opts, ctx, before, after)
  {
    after := before;
    var tech, _ := TechFingerprint.FingerprintTechnologies(env, after.endpoints);
    after := after.(technologies := tech);

    var waf, _, _ := Waf.FingerprintWAF(env, opts);
    after := after.(waf := waf);

    var params := Params.DiscoverParameters(env, after.endpoints, ctx);
    after := after.(parameters := if params.Ok? then params.value else []);

    if opts.deepJS {
      var jsFindings, _ := JsIntel.MineJavaScript(env, opts.userAgent, after.endpoints);
      after := after.(jsFiles := jsFindings);
      var apis := AppendHints(after.apis, jsFindings);
      after := after.(apis := apis);
    }
  }

  /** The loop appending each JS finding's endpoint hints to the APIs. */
  method AppendHints(apis0: seq<string>, findings: seq<JSFinding>) returns (apis: seq<string>)
    ensures apis == apis0 + AllHints(findings)
  {
    apis := apis0;
    for i := 0 to |findings|
      invariant apis == apis0 + AllHints(findings[..i])
    {
      assert findings[..i + 1][..i] == findings[..i];
      apis := apis + findings[i].endpoints;
    }
    assert findings[..|findings|] == findings;
  }

  class Engine {
    const options: Options
    /** Whether an AI client was supplied. */
    const hasAiClient: bool
    const store: Store
    var result: ReconResult

    /** The result is always filed under the scanned domain. */
    predicate Valid()
      reads this
    {
      result.domain == options.domain
    }

    /** `NewEngine`: a result holding only the timestamp and the domain. */
    constructor (opts: Options, hasAiClient: bool, store: Store, now: int)
      ensures options == opts && this.hasAiClient == hasAiClient && this.store == store
      ensures result == InitialResult(opts.domain, now)
      ensures Valid()
    {
      options := opts;
      this.hasAiClient := hasAiClient;
      this.store := store;
      result := InitialResult(opts.domain, now);
    }

    /** `Start`, sequentialised. Reading the baseline may fail (`readFails`) and saving may fail
        (`saveFails`); both errors are swallowed. `changes` is the change report when a baseline
        was found, and `saved` says whether the final save went through. */
    method Start(env: Env, ctx: Params.Ctx, readFails: bool, saveFails: bool)
      returns (changes: Option<seq<string>>, saved: bool)
      requires Valid()
      modifies this, store
      ensures Valid()
      // Phase 1: the subdomains are replaced by the enumeration.
      ensures NoDup(result.subdomains)
      ensures Elems(result.subdomains) == Subdomain.Cleaned(Subdomain.Emitted(env, options, hasAiClient))
      // No subdomains: stop before anything else, and before saving.
      ensures result.subdomains == [] ==>
                result == old(result).(subdomains := []) && store.entries == old(store.entries)
                && changes == None && !saved
      // Phase 2.
      ensures result.subdomains != [] ==>
                NoDup(result.endpoints) && Elems(result.endpoints) == Endpoint.HarvestedSet(env, result.subdomains)
      // Phase 3 runs only on a non-empty endpoint list.
      ensures result.subdomains != [] && result.endpoints == [] ==>
                result == old(result).(subdomains := result.subdomains, endpoints := [])
      ensures result.subdomains != [] && result.endpoints != [] ==>
                EndpointsAnalysed(env, options, ctx,
                                  old(result).(subdomains := result.subdomains, endpoints := result.endpoints), result)
      // Fields no phase writes.
      ensures result.timestamp == old(result.timestamp) && result.cors == old(result.cors)
      ensures result.requestSmuggling == old(result.requestSmuggling)
      // Phase 4: the report needs a baseline read at the start; the save comes last.
      ensures result.subdomains != [] ==>
                && (changes.Some? <==> !readFails && options.domain in old(store.entries))
                && (changes.Some? ==> changes.value == Diff(old(store.entries)[options.domain].subdomains, result.subdomains))
                && saved == !saveFails
                && store.entries == (if saveFails then old(store.entries) else Put(old(store.entries), result))
    {
      var previousResult, _ := store.GetPreviousResult(options.domain, readFails);

      // Phase 1.
      var subs := Subdomain.EnumerateSubdomains(env, options, hasAiClient);
      result := result.(subdomains := subs);

      // Phase 2.
      if |result.subdomains| > 0 {
        var endpoints := Endpoint.EnumerateEndpoints(env, result.subdomains);
        result := result.(endpoints := endpoints);
      } else {
        return None, false;
      }

      // Phase 3.
      if |result.endpoints| > 0 {
        result := AnalyseEndpoints(env, options, ctx, result);
      }

      // Phase 4.
      changes := None;
      if previousResult.Some? {
        var newSubdomains := DiffStringSlices(previousResult.value.subdomains, result.subdomains);
        changes := Some(newSubdomains);
      }
      var err := store.SaveResult(result, saveFails);
      saved := !err;
    }
  }
}
