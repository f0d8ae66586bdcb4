/** Parameter discovery: the set of query-parameter names over all collected endpoints. */
module Params {
  import opened Wrappers
  import opened Seqs
  import opened Http

  /** The scan context as the loop sees it: `doneAt == Some(k)` when `ctx.Done()` is first seen
      closed just before endpoint `k` is examined; `err` is what `ctx.Err()` then reports. */
  datatype Ctx = Ctx(doneAt: Option<nat>, err: string)

  predicate CancelledWithin(ctx: Ctx, n: nat)
  {
    ctx.doneAt.Some? && ctx.doneAt.value < n
  }

  /** Every query key of every endpoint that parses. */
  ghost function ParamSet(parse: string -> Option<Url>, endpoints: seq<string>): set<string>
  {
    set e, k | e in endpoints && parse(e).Some? && k in parse(e).value.query :: k
  }

  lemma ParamSetSnoc(parse: string -> Option<Url>, endpoints: seq<string>, e: string)
    ensures ParamSet(parse, endpoints + [e])
         == ParamSet(parse, endpoints) + (if parse(e).Some? then parse(e).value.query else {})
  {
  }

  /** `DiscoverParameters`: cancellation seen before any endpoint gives `(nil, ctx.Err())`;
      otherwise each parameter name once, unparseable endpoints skipped. */
  method DiscoverParameters(env: Env, endpoints: seq<string>, ctx: Ctx) returns (r: Result<seq<string>>)
    ensures r.Err? <==> CancelledWithin(ctx, |endpoints|)
    ensures r.Err? ==> r.error == ctx.err
    ensures r.Ok? ==> NoDup(r.value) && Elems(r.value) == ParamSet(env.parse, endpoints)
    ensures r.Ok? && (forall e :: e in endpoints && env.parse(e).Some? ==> env.parse(e).value.query == {})
         ==> r.value == []
  {
    var uniqueParams: set<string> := {};
    for i := 0 to |endpoints|
      invariant uniqueParams == ParamSet(env.parse, endpoints[..i])
      invariant !(ctx.doneAt.Some? && ctx.doneAt.value < i)
    {
      if ctx.doneAt == Some(i) {
        return Err(ctx.err);
      }
      assert endpoints[..i + 1] == endpoints[..i] + [endpoints[i]];
      ParamSetSnoc(env.parse, endpoints[..i], endpoints[i]);
      var parsed := env.parse(endpoints[i]);
      if parsed.None? {
        continue;
      }
      uniqueParams := AddKeys(uniqueParams, parsed.value.query);
    }
    assert endpoints[..|endpoints|] == endpoints;
    var result := SetToSeq(uniqueParams);
    r := Ok(result);
  }

  /** The inner loop over one URL's query keys: each key not yet seen is added. */
  method AddKeys(unique: set<string>, query: set<string>) returns (unique': set<string>)
    ensures unique' == unique + query
  {
    unique' := unique;
    var keys := query;
    while keys != {}
      invariant keys <= query
      invariant unique' + keys == unique + query
      decreases |keys|
    {
      var paramName :| paramName in keys;
      if paramName !in unique' {
        unique' := unique' + {paramName};
      }
      keys := keys - {paramName};
    }
  }
}
