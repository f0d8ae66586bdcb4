/** Endpoint harvesting: one Wayback Machine CDX query per subdomain, fanned in and deduplicated. */
module Endpoint {
  import opened Wrappers
  import opened Seqs
  import opened Strs
  import opened Http

  /** The CDX query for every archived URL under a subdomain. */
  function WaybackUrl(domain: string): string
  {
    "http://web.archive.org/cdx/search/cdx?url=*." + domain + "/*&output=text&fl=original&collapse=urlkey"
  }

  /** The non-empty lines among `lines`, in order. */
  function NonEmpty(lines: seq<string>): (r: seq<string>)
    ensures forall l :: l in r <==> l in lines && l != ""
  {
    if lines == [] then []
    else
      var last := lines[|lines| - 1];
      NonEmpty(lines[..|lines| - 1]) + (if last != "" then [last] else [])
  }

  /** What one subdomain's query sends down the channel: the non-empty lines of the body when the
      archive answered 200, nothing otherwise. */
  ghost function WaybackEmitted(env: Env, domain: string): seq<string>
  {
    var o := Get(env, WaybackUrl(domain));
    if o.Got? && o.resp.status == 200 then NonEmpty(ScanLines(o.resp.body)) else []
  }

  /** Every URL some subdomain's query reports. */
  ghost function HarvestedSet(env: Env, subdomains: seq<string>): set<string>
  {
    set d, x | d in subdomains && x in WaybackEmitted(env, d) :: x
  }

  /** `getEndpointsFromWayback`: the scanner loop forwards each non-empty line. */
  method GetEndpointsFromWayback(env: Env, domain: string) returns (out: seq<string>)
    ensures out == WaybackEmitted(env, domain)
    ensures "" !in out
    ensures forall l :: l in out ==> l in ScanLines(Get(env, WaybackUrl(domain)).resp.body)
  {
    out := [];
    var o := Get(env, WaybackUrl(domain));
    if o.Failed? || o.resp.status != 200 {
      return;
    }
    var lines := ScanLines(o.resp.body);
    for i := 0 to |lines|
      invariant out == NonEmpty(lines[..i])
    {
      var line := lines[i];
      assert lines[..i + 1][..i] == lines[..i];
      if line != "" {
        out := out + [line];
      }
    }
    assert lines[..|lines|] == lines;
  }

  lemma HarvestedSnoc(env: Env, subdomains: seq<string>, d: string)
    ensures HarvestedSet(env, subdomains + [d]) == HarvestedSet(env, subdomains) + Elems(WaybackEmitted(env, d))
  {
  }

  lemma NothingEmptyHarvested(env: Env, subdomains: seq<string>)
    ensures "" !in HarvestedSet(env, subdomains)
  {
    forall d | d in subdomains
      ensures "" !in WaybackEmitted(env, d)
    {
    }
  }

  /** `EnumerateEndpoints`: each harvested URL exactly once, in no particular order. */
  method EnumerateEndpoints(env: Env, subdomains: seq<string>) returns (r: seq<string>)
    ensures NoDup(r)
    ensures Elems(r) == HarvestedSet(env, subdomains)
    ensures "" !in r
    ensures subdomains == [] ==> r == []
  {
    var channel: seq<string> := [];
    for i := 0 to |subdomains|
      invariant Elems(channel) == HarvestedSet(env, subdomains[..i])
    {
      var found := GetEndpointsFromWayback(env, subdomains[i]);
      assert subdomains[..i + 1] == subdomains[..i] + [subdomains[i]];
      HarvestedSnoc(env, subdomains[..i], subdomains[i]);
      ElemsAppend(channel, found);
      channel := channel + found;
    }
    assert subdomains[..|subdomains|] == subdomains;
    var unique: set<string> := {};
    for i := 0 to |channel|
      invariant unique == Elems(channel[..i])
    {
      assert channel[..i + 1] == channel[..i] + [channel[i]];
      unique := unique + {channel[i]};
    }
    assert channel[..|channel|] == channel;
    assert "" !in unique by {
      NothingEmptyHarvested(env, subdomains);
    }
    r := SetToSeq(unique);
  }
}
