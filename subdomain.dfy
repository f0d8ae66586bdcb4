/** Subdomain enumeration: the crt.sh and OTX passive sources, the optional AI source, and the
    fan-in that strips one wildcard prefix and deduplicates. */
module Subdomain {
  import opened Wrappers
  import opened Seqs
  import opened Strs
  import opened Http
  import opened Model

  function CrtShUrl(domain: string): string
  {
    "https://crt.sh/?q=%25." + domain + "&output=json"
  }

  function OtxUrl(domain: string): string
  {
    "https://otx.alienvault.com/api/v1/indicators/domain/" + domain + "/passive_dns"
  }

  /** The pieces of `names`, split at newlines, that end in `suffix`. */
  ghost function SuffixPieces(names: seq<string>, suffix: string): set<string>
  {
    set n, d | n in names && d in Split(n, '\n') && HasSuffix(d, suffix) :: d
  }

  /** What crt.sh contributes: nothing unless the query answered 200 with a readable body, and then
      every newline-separated piece of every `name_value` that ends in "." + domain. */
  ghost function CrtShSet(env: Env, domain: string): set<string>
  {
    var o := Get(env, CrtShUrl(domain));
    if FetchedOk(o) then SuffixPieces(env.crtShNames(o.resp.body), "." + domain) else {}
  }

  /** What OTX contributes: every reported hostname, unfiltered, when the query succeeded. */
  ghost function OtxHostnames(env: Env, domain: string): seq<string>
  {
    var o := Get(env, OtxUrl(domain));
    if FetchedOk(o) then env.otxHostnames(o.resp.body) else []
  }

  /** Whether the AI suggestion source runs: only with AI assist on and a client present. */
  predicate AiSourceRuns(opts: Options, hasAiClient: bool)
  {
    opts.aiAssist && hasAiClient
  }

  /** Everything the sources send down the channel, as a set. */
  ghost function Emitted(env: Env, opts: Options, hasAiClient: bool): set<string>
  {
    CrtShSet(env, opts.domain) + Elems(OtxHostnames(env, opts.domain))
      + (if AiSourceRuns(opts, hasAiClient) then Elems(env.aiSubdomains) else {})
  }

  /** The fan-in's clean-up: one leading "*." removed from each item. */
  ghost function Cleaned(xs: set<string>): set<string>
  {
    set x | x in xs :: TrimPrefix(x, "*.")
  }

  /** `getSubdomainsFromCrtSh`: the strict subdomains named by crt.sh; a failed request, a
      non-200 status or an unreadable body sends nothing. */
  method GetSubdomainsFromCrtSh(env: Env, domain: string) returns (out: seq<string>)
    ensures Elems(out) == CrtShSet(env, domain)
    ensures forall d :: d in out ==> HasSuffix(d, "." + domain) && d != domain
    ensures !FetchedOk(Get(env, CrtShUrl(domain))) ==> out == []
  {
    out := [];
    var o := Get(env, CrtShUrl(domain));
    if !FetchedOk(o) {
      return;
    }
    var suffix := "." + domain;
    var records := env.crtShNames(o.resp.body);
    for i := 0 to |records|
      invariant Elems(out) == SuffixPieces(records[..i], suffix)
      invariant forall d :: d in out ==> HasSuffix(d, suffix)
    {
      var pieces := Split(records[i], '\n');
      ghost var before := out;
      for j := 0 to |pieces|
        invariant Elems(out) == Elems(before) + Kept(pieces[..j], suffix)
        invariant forall d :: d in out ==> HasSuffix(d, suffix)
      {
        assert pieces[..j + 1] == pieces[..j] + [pieces[j]];
        KeptSnoc(pieces[..j], pieces[j], suffix);
        if HasSuffix(pieces[j], suffix) {
          ElemsSnoc(out, pieces[j]);
          out := out + [pieces[j]];
        }
      }
      assert pieces[..|pieces|] == pieces;
      assert records[..i + 1] == records[..i] + [records[i]];
      SuffixPiecesSnoc(records[..i], records[i], suffix);
    }
    assert records[..|records|] == records;
  }

  ghost function Kept(pieces: seq<string>, suffix: string): set<string>
  {
    set d | d in pieces && HasSuffix(d, suffix)
  }

  lemma KeptSnoc(pieces: seq<string>, p: string, suffix: string)
    ensures Kept(pieces + [p], suffix) == Kept(pieces, suffix) + (if HasSuffix(p, suffix) then {p} else {})
  {
  }

  lemma SuffixPiecesSnoc(names: seq<string>, n: string, suffix: string)
    ensures SuffixPieces(names + [n], suffix) == SuffixPieces(names, suffix) + Kept(Split(n, '\n'), suffix)
  {
  }

  lemma CleanedSnoc(xs: seq<string>, x: string)
    ensures Cleaned(Elems(xs + [x])) == Cleaned(Elems(xs)) + {TrimPrefix(x, "*.")}
  {
    assert Elems(xs + [x]) == Elems(xs) + {x};
  }

  /** `getSubdomainsFromOTX`: every hostname OTX reports, or nothing when the request failed. */
  method GetSubdomainsFromOtx(env: Env, domain: string) returns (out: seq<string>)
    ensures out == OtxHostnames(env, domain)
    ensures !FetchedOk(Get(env, OtxUrl(domain))) ==> out == []
  {
    out := [];
    var o := Get(env, OtxUrl(domain));
    if !FetchedOk(o) {
      return;
    }
    var hostnames := env.otxHostnames(o.resp.body);
    for i := 0 to |hostnames|
      invariant out == hostnames[..i]
    {
      out := out + [hostnames[i]];
    }
  }

  /** `EnumerateSubdomains`: the channel carries the output of every running source; the result holds
      each cleaned item exactly once, in no particular order. */
  method EnumerateSubdomains(env: Env, opts: Options, hasAiClient: bool) returns (r: seq<string>)
    ensures NoDup(r)
    ensures Elems(r) == Cleaned(Emitted(env, opts, hasAiClient))
    ensures !AiSourceRuns(opts, hasAiClient)
         ==> Elems(r) == Cleaned(CrtShSet(env, opts.domain) + Elems(OtxHostnames(env, opts.domain)))
  {
    var crt := GetSubdomainsFromCrtSh(env, opts.domain);
    var otx := GetSubdomainsFromOtx(env, opts.domain);
    var channel := crt + otx;
    if AiSourceRuns(opts, hasAiClient) {
      channel := channel + env.aiSubdomains;
    }
    ElemsAppend(crt, otx);
    if AiSourceRuns(opts, hasAiClient) {
      ElemsAppend(crt + otx, env.aiSubdomains);
    }
    r := Deduplicate(channel);
  }

  /** The fan-in loop: each cleaned item is added to the set of unique names once. */
  method Deduplicate(channel: seq<string>) returns (r: seq<string>)
    ensures NoDup(r)
    ensures Elems(r) == Cleaned(Elems(channel))
  {
    var unique: set<string> := {};
    for i := 0 to |channel|
      invariant unique == Cleaned(Elems(channel[..i]))
    {
      assert channel[..i + 1] == channel[..i] + [channel[i]];
      CleanedSnoc(channel[..i], channel[i]);
      var cleanSub := TrimPrefix(channel[i], "*.");
      if cleanSub !in unique {
        unique := unique + {cleanSub};
      }
    }
    assert channel[..|channel|] == channel;
    r := SetToSeq(unique);
  }

  /** Only one wildcard prefix is removed: "*.*.x" is cleaned to "*.x". */
  lemma TrimsOneWildcard(x: string)
    ensures TrimPrefix("*." + x, "*.") == x
  {
  }

  /** Two sources reporting the same host yield it once: the result is the union of what they
      report, whatever the repeats. */
  lemma {:induction false} SharedReportsMergeOnce(xs: seq<string>, ys: seq<string>)
    requires forall x :: x in xs + ys ==> !HasPrefix(x, "*.")
    ensures Cleaned(Elems(xs + ys)) == Elems(xs) + Elems(ys)
  {
    forall x | x in Elems(xs + ys)
      ensures TrimPrefix(x, "*.") == x
    {
    }
    assert Elems(xs + ys) == Elems(xs) + Elems(ys);
  }
}
