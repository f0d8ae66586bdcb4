/** The baseline store: one saved scan result per domain. The key-value database and the JSON
    encoding are reduced to a map from domain to result; a database or encoding failure is a
    parameter of each call. */
module Storage {
  import opened Wrappers
  import opened Model

  /** The entries after saving `r`: it replaces whatever was stored under its own domain. */
  function Put(entries: map<string, ReconResult>, r: ReconResult): (e: map<string, ReconResult>)
    ensures r.domain in e && e[r.domain] == r
    ensures forall d :: d != r.domain ==> (d in e <==> d in entries)
    ensures forall d :: d != r.domain && d in entries ==> e[d] == entries[d]
  {
    entries[r.domain := r]
  }

  /** What a read for `domain` finds: the stored result, or none for a missing key. */
  function Lookup(entries: map<string, ReconResult>, domain: string): (o: Option<ReconResult>)
    ensures o.Some? <==> domain in entries
    ensures o.Some? ==> o.value == entries[domain]
  {
    if domain in entries then Some(entries[domain]) else None
  }

  class Store {
    var entries: map<string, ReconResult>

    /** `NewStore`: an empty database. */
    constructor ()
      ensures entries == map[]
    {
      entries := map[];
    }

    /** `SaveResult`: stores the result under its domain, unless the write fails, in which case
        nothing changes and the error is reported. */
    method SaveResult(result: ReconResult, fails: bool) returns (err: bool)
      modifies this
      ensures err == fails
      ensures fails ==> entries == old(entries)
      ensures !fails ==> entries == Put(old(entries), result)
    {
      if fails {
        return true;
      }
      entries := entries[result.domain := result];
      return false;
    }

    /** `GetPreviousResult`: a missing key is no result and no error; a failed read is no result
        and an error. */
    method GetPreviousResult(domain: string, fails: bool) returns (r: Option<ReconResult>, err: bool)
      ensures err == fails
      ensures fails ==> r == None
      ensures !fails ==> r == Lookup(entries, domain)
    {
      if fails {
        return None, true;
      }
      if domain in entries {
        return Some(entries[domain]), false;
      }
      return None, false;
    }
  }

  /** A saved result is what the next read of its domain returns, and other domains keep theirs. */
  lemma ReadAfterSave(entries: map<string, ReconResult>, r: ReconResult, d: string)
    ensures Lookup(Put(entries, r), r.domain) == Some(r)
    ensures d != r.domain ==> Lookup(Put(entries, r), d) == Lookup(entries, d)
  {
  }

  /** Saving twice under one domain keeps only the later result. */
  lemma LaterSaveWins(entries: map<string, ReconResult>, r1: ReconResult, r2: ReconResult)
    requires r1.domain == r2.domain
    ensures Put(Put(entries, r1), r2) == Put(entries, r2)
  {
  }
}
