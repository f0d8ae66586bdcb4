/** Real-time monitoring: the certificate-transparency stream loop. Each pass of the outer loop
    first looks for cancellation, then dials; a failed dial waits 15 seconds and retries, a live
    connection is read until a read error sends the loop back to the top. Every candidate domain
    of a certificate update is checked against the stored baseline.

    The loop itself never ends except by cancellation, so it is modelled over a finite trace of
    passes (`Attempt`s); the store is read afresh for every candidate, and `baseline(k)` is what the
    k-th read returns (None for a missing key and for a read error alike). */
module Monitoring {
  import opened Wrappers
  import opened Strs
  import opened Model

  /** The wait after a failed dial, in seconds; it never grows. */
  const RetryDelaySeconds := 15

  const CertificateUpdate := "certificate_update"

  /** A stream message: its `message_type` and its `data.leaf_cert.all_domains` strings. */
  datatype Message = Message(messageType: string, domains: seq<string>)

  /** The outcome of a dial: a failure, or a connection delivering `messages` before its read error. */
  datatype Dial = DialFailed | Connected(messages: seq<Message>)

  /** One pass of the outer loop: whether the context was done when the pass began, and its dial. */
  datatype Attempt = Attempt(cancelled: bool, dial: Dial)

  /** A certificate domain is a candidate iff it is a strict subdomain and not a wildcard. */
  predicate IsCandidate(domain: string, name: string)
  {
    HasSuffix(name, "." + domain) && !HasPrefix(name, "*.")
  }

  /** The candidates among `names`, in order, with repeats. */
  function CandidatesIn(domain: string, names: seq<string>): seq<string>
  {
    if names == [] then []
    else
      var n := names[|names| - 1];
      CandidatesIn(domain, names[..|names| - 1]) + (if IsCandidate(domain, n) then [n] else [])
  }

  /** The candidates of one message; only certificate updates have any. */
  function MessageCandidates(domain: string, m: Message): seq<string>
  {
    if m.messageType != CertificateUpdate then [] else CandidatesIn(domain, m.domains)
  }

  /** The candidates of a connection's messages, in arrival order. */
  function ConnectionCandidates(domain: string, msgs: seq<Message>): seq<string>
  {
    if msgs == [] then []
    else ConnectionCandidates(domain, msgs[..|msgs| - 1]) + MessageCandidates(domain, msgs[|msgs| - 1])
  }

  /** The candidates seen over a sequence of passes, in order. */
  function SessionCandidates(domain: string, attempts: seq<Attempt>): seq<string>
  {
    if attempts == [] then []
    else
      var a := attempts[|attempts| - 1];
      SessionCandidates(domain, attempts[..|attempts| - 1])
        + (if a.dial.Connected? then ConnectionCandidates(domain, a.dial.messages) else [])
  }

  /** The number of failed dials, each of which is followed by one 15-second wait. */
  function DialFailures(attempts: seq<Attempt>): nat
  {
    if attempts == [] then 0
    else DialFailures(attempts[..|attempts| - 1]) + (if attempts[|attempts| - 1].dial.DialFailed? then 1 else 0)
  }

  /** The index of the first pass that finds the context done, or the trace length if none does. */
  function FirstCancel(attempts: seq<Attempt>): (r: nat)
    ensures r <= |attempts|
    ensures forall j :: 0 <= j < r ==> !attempts[j].cancelled
    ensures r < |attempts| ==> attempts[r].cancelled
  {
    if attempts == [] || attempts[0].cancelled then 0 else 1 + FirstCancel(attempts[1..])
  }

  /** A candidate is announced iff there is no baseline or the baseline does not list it. */
  predicate Announces(baseline: Option<ReconResult>, subdomain: string)
  {
    baseline.Some? ==> subdomain !in baseline.value.subdomains
  }

  /** The announcements for `cands` when the first of them is checked with read number `k`. */
  function Announced(cands: seq<string>, baseline: nat -> Option<ReconResult>, k: nat): seq<string>
  {
    if cands == [] then []
    else
      var n := |cands| - 1;
      Announced(cands[..n], baseline, k) + (if Announces(baseline(k + n), cands[n]) then [cands[n]] else [])
  }

  lemma {:induction false} AnnouncedAppend(a: seq<string>, b: seq<string>, baseline: nat -> Option<ReconResult>, k: nat)
    ensures Announced(a + b, baseline, k) == Announced(a, baseline, k) + Announced(b, baseline, k + |a|)
  {
    if b == [] {
      assert a + b == a;
    } else {
      var n := |b| - 1;
      assert (a + b)[..|a + b| - 1] == a + b[..n];
      AnnouncedAppend(a, b[..n], baseline, k);
    }
  }

  lemma AnnouncedSnoc(a: seq<string>, x: string, baseline: nat -> Option<ReconResult>, k: nat)
    ensures Announced(a + [x], baseline, k)
         == Announced(a, baseline, k) + (if Announces(baseline(k + |a|), x) then [x] else [])
  {
    assert (a + [x])[..|a|] == a;
  }

  /** `processDiscoveredSubdomain`: the membership scan of the baseline's subdomains, returning
      early on a match. */
  method ProcessDiscoveredSubdomain(baseline: Option<ReconResult>, subdomain: string) returns (announce: bool)
    ensures announce <==> Announces(baseline, subdomain)
  {
    if baseline.Some? {
      var known := baseline.value.subdomains;
      for i := 0 to |known|
        invariant subdomain !in known[..i]
      {
        if known[i] == subdomain {
          return false;
        }
      }
      assert known[..|known|] == known;
    }
    return true;
  }

  /** A name that is not a candidate adds nothing. */
  lemma OtherNameStep(domain: string, names: seq<string>, j: nat)
    requires j < |names| && !IsCandidate(domain, names[j])
    ensures CandidatesIn(domain, names[..j + 1]) == CandidatesIn(domain, names[..j])
  {
    assert names[..j + 1][..j] == names[..j];
  }

  /** A candidate name takes the next store read, and is announced after the earlier ones iff
      that read does not list it. */
  lemma CandidateStep(domain: string, names: seq<string>, j: nat, baseline: nat -> Option<ReconResult>, k: nat, used: nat)
    requires j < |names| && IsCandidate(domain, names[j])
    requires used == |CandidatesIn(domain, names[..j])|
    ensures |CandidatesIn(domain, names[..j + 1])| == used + 1
    ensures Announced(CandidatesIn(domain, names[..j + 1]), baseline, k)
         == Announced(CandidatesIn(domain, names[..j]), baseline, k)
            + (if Announces(baseline(k + used), names[j]) then [names[j]] else [])
  {
    assert names[..j + 1][..j] == names[..j];
    AnnouncedSnoc(CandidatesIn(domain, names[..j]), names[j], baseline, k);
  }

  /** The body of the inner loop for one message: skip anything but a certificate update, then
      check every candidate domain, using reads `k`, `k + 1`, ... of the store. */
  method HandleMessage(domain: string, m: Message, baseline: nat -> Option<ReconResult>, k: nat)
    returns (out: seq<string>, used: nat)
    ensures used == |MessageCandidates(domain, m)|
    ensures out == Announced(MessageCandidates(domain, m), baseline, k)
  {
    out, used := [], 0;
    if m.messageType != CertificateUpdate {
      return;
    }
    var names := m.domains;
    for j := 0 to |names|
      invariant used == |CandidatesIn(domain, names[..j])|
      invariant out == Announced(CandidatesIn(domain, names[..j]), baseline, k)
    {
      var name := names[j];
      if IsCandidate(domain, name) {
        CandidateStep(domain, names, j, baseline, k, used);
        var announce := ProcessDiscoveredSubdomain(baseline(k + used), name);
        if announce {
          out := out + [name];
        }
        used := used + 1;
      } else {
        OtherNameStep(domain, names, j);
      }
    }
    assert names[..|names|] == names;
  }

  /** One message of the inner loop: its announcements and reads extend those of the earlier ones. */
  lemma ReadStep(domain: string, msgs: seq<Message>, i: nat, baseline: nat -> Option<ReconResult>, k: nat,
                 out: seq<string>, used: nat, more: seq<string>, n: nat)
    requires i < |msgs|
    requires used == |ConnectionCandidates(domain, msgs[..i])|
    requires out == Announced(ConnectionCandidates(domain, msgs[..i]), baseline, k)
    requires n == |MessageCandidates(domain, msgs[i])|
    requires more == Announced(MessageCandidates(domain, msgs[i]), baseline, k + used)
    ensures used + n == |ConnectionCandidates(domain, msgs[..i + 1])|
    ensures out + more == Announced(ConnectionCandidates(domain, msgs[..i + 1]), baseline, k)
  {
    assert msgs[..i + 1][..i] == msgs[..i];
    AnnouncedAppend(ConnectionCandidates(domain, msgs[..i]), MessageCandidates(domain, msgs[i]), baseline, k);
  }

  /** The inner loop: read the connection's messages until the read error that ends it. */
  method ReadUntilError(domain: string, msgs: seq<Message>, baseline: nat -> Option<ReconResult>, k: nat)
    returns (out: seq<string>, used: nat)
    ensures used == |ConnectionCandidates(domain, msgs)|
    ensures out == Announced(ConnectionCandidates(domain, msgs), baseline, k)
  {
    out, used := [], 0;
    for i := 0 to |msgs|
      invariant used == |ConnectionCandidates(domain, msgs[..i])|
      invariant out == Announced(ConnectionCandidates(domain, msgs[..i]), baseline, k)
    {
      var more, n := HandleMessage(domain, msgs[i], baseline, k + used);
      ReadStep(domain, msgs, i, baseline, k, out, used, more, n);
      out := out + more;
      used := used + n;
    }
    assert msgs[..|msgs|] == msgs;
  }

  /** A pass whose dial fails adds no candidates and one wait. */
  lemma FailedPass(domain: string, attempts: seq<Attempt>, i: nat)
    requires i < |attempts| && attempts[i].dial.DialFailed?
    ensures SessionCandidates(domain, attempts[..i + 1]) == SessionCandidates(domain, attempts[..i])
    ensures DialFailures(attempts[..i + 1]) == DialFailures(attempts[..i]) + 1
  {
    assert attempts[..i + 1][..i] == attempts[..i];
  }

  /** A connected pass adds no wait, and its announcements follow those of the earlier passes. */
  lemma ConnectedPass(domain: string, attempts: seq<Attempt>, i: nat, baseline: nat -> Option<ReconResult>,
                      announced: seq<string>, used: nat, more: seq<string>)
    requires i < |attempts| && attempts[i].dial.Connected?
    requires used == |SessionCandidates(domain, attempts[..i])|
    requires announced == Announced(SessionCandidates(domain, attempts[..i]), baseline, 0)
    requires more == Announced(ConnectionCandidates(domain, attempts[i].dial.messages), baseline, used)
    ensures SessionCandidates(domain, attempts[..i + 1])
         == SessionCandidates(domain, attempts[..i]) + ConnectionCandidates(domain, attempts[i].dial.messages)
    ensures DialFailures(attempts[..i + 1]) == DialFailures(attempts[..i])
    ensures announced + more == Announced(SessionCandidates(domain, attempts[..i + 1]), baseline, 0)
  {
    assert attempts[..i + 1][..i] == attempts[..i];
    AnnouncedAppend(SessionCandidates(domain, attempts[..i]), ConnectionCandidates(domain, attempts[i].dial.messages),
                    baseline, 0);
  }

  /** `StartMonitoring` over a finite trace of passes: it stops at the first pass that finds the
      context done; before that, every failed dial costs one 15-second wait and every candidate
      of every certificate update is announced unless the baseline read for it lists it. */
  method StartMonitoring(domain: string, attempts: seq<Attempt>, baseline: nat -> Option<ReconResult>)
    returns (announced: seq<string>, waits: seq<int>, stopped: bool)
    ensures stopped <==> FirstCancel(attempts) < |attempts|
    ensures |waits| == DialFailures(attempts[..FirstCancel(attempts)])
    ensures forall j :: 0 <= j < |waits| ==> waits[j] == RetryDelaySeconds
    ensures announced == Announced(SessionCandidates(domain, attempts[..FirstCancel(attempts)]), baseline, 0)
  {
    announced, waits := [], [];
    var used: nat := 0;
    var i := 0;
    while i < |attempts|
      invariant 0 <= i <= |attempts|
      invariant i <= FirstCancel(attempts)
      invariant |waits| == DialFailures(attempts[..i])
      invariant forall j :: 0 <= j < |waits| ==> waits[j] == RetryDelaySeconds
      invariant used == |SessionCandidates(domain, attempts[..i])|
      invariant announced == Announced(SessionCandidates(domain, attempts[..i]), baseline, 0)
    {
      var a := attempts[i];
      if a.cancelled {
        assert FirstCancel(attempts) == i;
        return announced, waits, true;
      }
      match a.dial {
        case DialFailed =>
          FailedPass(domain, attempts, i);
          waits := waits + [RetryDelaySeconds];
        case Connected(msgs) =>
          var more, n := ReadUntilError(domain, msgs, baseline, used);
          ConnectedPass(domain, attempts, i, baseline, announced, used, more);
          announced := announced + more;
          used := used + n;
      }
      i := i + 1;
    }
    assert attempts[..|attempts|] == attempts;
    stopped := false;
  }

  /** The bare domain and wildcard names are never candidates. */
  lemma BareAndWildcardExcluded(domain: string, name: string)
    ensures !IsCandidate(domain, domain)
    ensures !IsCandidate(domain, "*." + name)
  {
    assert ("*." + name)[..2] == "*.";
  }

  /** Every announcement of a session is a candidate of that session. */
  lemma {:induction false} AnnouncedAreCandidates(cands: seq<string>, baseline: nat -> Option<ReconResult>, k: nat, x: string)
    requires x in Announced(cands, baseline, k)
    ensures x in cands
  {
    var n := |cands| - 1;
    if x in Announced(cands[..n], baseline, k) {
      AnnouncedAreCandidates(cands[..n], baseline, k, x);
    }
  }

  lemma {:induction false} CandidatesInAreCandidates(domain: string, names: seq<string>, x: string)
    requires x in CandidatesIn(domain, names)
    ensures IsCandidate(domain, x) && x in names
  {
    var n := |names| - 1;
    if x in CandidatesIn(domain, names[..n]) {
      CandidatesInAreCandidates(domain, names[..n], x);
    }
  }

  /** A candidate every baseline read lists is never announced, however often it appears. */
  lemma {:induction false} KnownNeverAnnounced(cands: seq<string>, baseline: nat -> Option<ReconResult>, k: nat, x: string)
    requires forall j: nat :: baseline(j).Some? && x in baseline(j).value.subdomains
    ensures x !in Announced(cands, baseline, k)
  {
    if cands != [] {
      var n := |cands| - 1;
      KnownNeverAnnounced(cands[..n], baseline, k, x);
    }
  }

  /** No deduplication within a session: with no baseline, a domain listed twice in one
      certificate update is announced twice. */
  lemma AnnouncedTwice(domain: string, name: string, baseline: nat -> Option<ReconResult>)
    requires IsCandidate(domain, name)
    requires forall j: nat :: baseline(j).None?
    ensures Announced(MessageCandidates(domain, Message(CertificateUpdate, [name, name])), baseline, 0)
         == [name, name]
  {
    AnnouncedSnoc([], name, baseline, 0);
    AnnouncedSnoc([name], name, baseline, 0);
    assert [name][..0] == [];
    assert CandidatesIn(domain, [name]) == [name];
    assert [name, name][..1] == [name];
    assert CandidatesIn(domain, [name, name]) == [name, name];
  }

  /** A store read error hides the baseline, so even a known candidate is announced. */
  lemma ReadErrorAnnounces(name: string, known: ReconResult, baseline: nat -> Option<ReconResult>, k: nat)
    requires name in known.subdomains
    requires baseline(k) == None
    ensures Announced([name], baseline, k) == [name]
    ensures !Announces(Some(known), name)
  {
    assert [name][..0] == [];
  }

  /** A read error is followed by a redial with no wait: passes that all connect never sleep. */
  lemma {:induction false} ConnectedPassesNeverSleep(attempts: seq<Attempt>)
    requires forall j :: 0 <= j < |attempts| ==> attempts[j].dial.Connected?
    ensures DialFailures(attempts) == 0
  {
    if attempts != [] {
      ConnectedPassesNeverSleep(attempts[..|attempts| - 1]);
    }
  }
}
