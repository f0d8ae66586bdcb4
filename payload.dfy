/** The payload loader: picks the payload file for a vulnerability type and parses it line by
    line. Comment lines of the form "# key: value" set metadata for the next payload; every
    other non-blank line is a payload, which takes the metadata collected so far and resets it. */
module Payload {
  import opened Wrappers
  import opened Strs

  /** One attack string and the metadata written above it. */
  datatype Payload = Payload(content: string, source: string, target: string, purpose: string)

  /** The metadata collected for the next payload. */
  datatype Meta = Meta(source: string, target: string, purpose: string)

  const NoMeta := Meta("", "", "")

  const SqliPayloadFile := "payloads/sqli/union_based/payloads.txt"

  /** What the file system offers at a path: nothing there, a file that cannot be opened (with
      the error's text), or a file whose scan yields `text` and then possibly an error. */
  datatype PayloadFile = NotExist | OpenFails(openErr: string) | Opened(text: string, scanErr: Option<string>)

  /** A trimmed line that holds a payload. */
  predicate IsPayloadLine(line: string)
  {
    line != "" && !HasPrefix(line, "#")
  }

  /** The key and value of a comment line, when the text after "#" holds a colon: the key is
      trimmed and lower-cased, the value trimmed. */
  function CommentEntry(line: string): Option<(string, string)>
    requires HasPrefix(line, "#")
  {
    var parts := SplitN2(TrimSpace(line[1..]), ':');
    if |parts| == 2 then Some((ToLower(TrimSpace(parts[0])), TrimSpace(parts[1]))) else None
  }

  /** The metadata after a comment line: only the keys source, target and purpose are kept. */
  function ApplyComment(meta: Meta, line: string): Meta
    requires HasPrefix(line, "#")
  {
    match CommentEntry(line)
    case None => meta
    case Some((key, value)) =>
      if key == "source" then meta.(source := value)
      else if key == "target" then meta.(target := value)
      else if key == "purpose" then meta.(purpose := value)
      else meta
  }

  /** The payloads that scanner tokens `toks` yield when `meta` has been collected before them. */
  function ParseFrom(toks: seq<string>, meta: Meta): seq<Payload>
  {
    if toks == [] then []
    else
      var line := TrimSpace(toks[0]);
      if line == "" then ParseFrom(toks[1..], meta)
      else if HasPrefix(line, "#") then ParseFrom(toks[1..], ApplyComment(meta, line))
      else [Payload(line, meta.source, meta.target, meta.purpose)] + ParseFrom(toks[1..], NoMeta)
  }

  /** The number of payload lines among `toks`. */
  function PayloadLines(toks: seq<string>): nat
  {
    if toks == [] then 0
    else (if IsPayloadLine(TrimSpace(toks[0])) then 1 else 0) + PayloadLines(toks[1..])
  }

  /** `LoadPayloads`: the type switch, the file checks with their error texts, then the scan. */
  method LoadPayloads(vulnType: string, fs: string -> PayloadFile) returns (r: Result<seq<Payload>>)
    ensures vulnType == "xss" ==> r == Err("payloads for '" + vulnType + "' are not yet implemented")
    ensures vulnType != "sqli" && vulnType != "xss" ==> r == Err("unknown vulnerability type: " + vulnType)
    ensures vulnType == "sqli" && fs(SqliPayloadFile).NotExist? ==>
              r == Err("payload file does not exist: " + SqliPayloadFile + ". Please populate it")
    ensures vulnType == "sqli" && fs(SqliPayloadFile).OpenFails? ==>
              r == Err("failed to open payload file: " + fs(SqliPayloadFile).openErr)
    ensures vulnType == "sqli" && fs(SqliPayloadFile).Opened? && fs(SqliPayloadFile).scanErr.Some? ==>
              r == Err("error scanning payload file: " + fs(SqliPayloadFile).scanErr.value)
    ensures vulnType == "sqli" && fs(SqliPayloadFile).Opened? && fs(SqliPayloadFile).scanErr.None? ==>
              r == Ok(ParseFrom(ScanLines(fs(SqliPayloadFile).text), NoMeta))
  {
    var payloadFile: string;
    if vulnType == "sqli" {
      payloadFile := SqliPayloadFile;
    } else if vulnType == "xss" {
      return Err("payloads for '" + vulnType + "' are not yet implemented");
    } else {
      return Err("unknown vulnerability type: " + vulnType);
    }
    var file := fs(payloadFile);
    if file.NotExist? {
      return Err("payload file does not exist: " + payloadFile + ". Please populate it");
    }
    if file.OpenFails? {
      return Err("failed to open payload file: " + file.openErr);
    }
    var payloads := ParseTokens(ScanLines(file.text));
    if file.scanErr.Some? {
      return Err("error scanning payload file: " + file.scanErr.value);
    }
    return Ok(payloads);
  }

  /** The scanner loop: trim each token, skip blank ones, fold comment lines into the current
      metadata, and turn every other line into a payload that takes the metadata and resets it. */
  method ParseTokens(toks: seq<string>) returns (payloads: seq<Payload>)
    ensures payloads == ParseFrom(toks, NoMeta)
  {
    payloads := [];
    var currentSource, currentTarget, currentPurpose := "", "", "";
    assert [] + ParseFrom(toks[0..], NoMeta) == ParseFrom(toks, NoMeta) by {
      assert toks[0..] == toks;
    }
    for i := 0 to |toks|
      invariant payloads + ParseFrom(toks[i..], Meta(currentSource, currentTarget, currentPurpose))
             == ParseFrom(toks, NoMeta)
    {
      ghost var meta, before := Meta(currentSource, currentTarget, currentPurpose), payloads;
      var line := TrimSpace(toks[i]);
      if line == "" {
      } else if HasPrefix(line, "#") {
        currentSource, currentTarget, currentPurpose := ReadComment(line, currentSource, currentTarget, currentPurpose);
      } else {
        payloads := payloads + [Payload(line, currentSource, currentTarget, currentPurpose)];
        currentSource, currentTarget, currentPurpose := "", "", "";
      }
      ParseStep(toks, i, ParseFrom(toks, NoMeta), before, meta, payloads, Meta(currentSource, currentTarget, currentPurpose));
    }
    assert toks[|toks|..] == [];
    assert payloads + [] == payloads;
  }

  /** One token of the scanner loop keeps the loop's invariant: what is parsed so far, followed by
      what the remaining tokens yield under the current metadata, is the whole result. */
  lemma ParseStep(toks: seq<string>, i: nat, whole: seq<Payload>,
                  payloads: seq<Payload>, meta: Meta, payloads': seq<Payload>, meta': Meta)
    requires i < |toks|
    requires payloads + ParseFrom(toks[i..], meta) == whole
    requires TrimSpace(toks[i]) == "" ==> payloads' == payloads && meta' == meta
    requires TrimSpace(toks[i]) != "" && HasPrefix(TrimSpace(toks[i]), "#") ==>
               payloads' == payloads && meta' == ApplyComment(meta, TrimSpace(toks[i]))
    requires IsPayloadLine(TrimSpace(toks[i])) ==>
               payloads' == payloads + [Payload(TrimSpace(toks[i]), meta.source, meta.target, meta.purpose)]
               && meta' == NoMeta
    ensures payloads' + ParseFrom(toks[i + 1..], meta') == whole
  {
    assert toks[i..][1..] == toks[i + 1..];
  }

  /** The comment branch of the scanner loop: split the text after "#" at the first colon and
      keep the value under one of the three known keys. */
  method ReadComment(line: string, source: string, target: string, purpose: string)
    returns (source': string, target': string, purpose': string)
    requires HasPrefix(line, "#")
    ensures Meta(source', target', purpose') == ApplyComment(Meta(source, target, purpose), line)
  {
    source', target', purpose' := source, target, purpose;
    var parts := SplitN2(TrimSpace(line[1..]), ':');
    if |parts| == 2 {
      var key := ToLower(TrimSpace(parts[0]));
      var value := TrimSpace(parts[1]);
      if key == "source" {
        source' := value;
      } else if key == "target" {
        target' := value;
      } else if key == "purpose" {
        purpose' := value;
      }
    }
  }

  /** One payload per payload line, in line order. */
  lemma {:induction false} PayloadCount(toks: seq<string>, meta: Meta)
    ensures |ParseFrom(toks, meta)| == PayloadLines(toks)
  {
    if toks != [] {
      var line := TrimSpace(toks[0]);
      if line == "" {
        PayloadCount(toks[1..], meta);
      } else if HasPrefix(line, "#") {
        PayloadCount(toks[1..], ApplyComment(meta, line));
      } else {
        PayloadCount(toks[1..], NoMeta);
      }
    }
  }

  /** Every payload's content is a trimmed, non-blank, non-comment line. */
  lemma ContentsAreTrimmedPayloadLines(toks: seq<string>, meta: Meta, p: Payload)
    requires p in ParseFrom(toks, meta)
    ensures IsPayloadLine(p.content)
    ensures p.content[0] !in SpaceChars && p.content[|p.content| - 1] !in SpaceChars
    ensures exists i :: 0 <= i < |toks| && p.content == TrimSpace(toks[i])
  {
    var i := PayloadLineAt(toks, meta, p);
  }

  /** The index of the token a payload comes from. */
  lemma {:induction false} PayloadLineAt(toks: seq<string>, meta: Meta, p: Payload) returns (i: nat)
    requires p in ParseFrom(toks, meta)
    ensures i < |toks| && p.content == TrimSpace(toks[i]) && IsPayloadLine(p.content)
  {
    var line := TrimSpace(toks[0]);
    var rest := toks[1..];
    var j: nat;
    if line == "" {
      assert ParseFrom(toks, meta) == ParseFrom(rest, meta);
      j := PayloadLineAt(rest, meta, p);
    } else if HasPrefix(line, "#") {
      assert ParseFrom(toks, meta) == ParseFrom(rest, ApplyComment(meta, line));
      j := PayloadLineAt(rest, ApplyComment(meta, line), p);
    } else if p == Payload(line, meta.source, meta.target, meta.purpose) {
      return 0;
    } else {
      assert ParseFrom(toks, meta) == [Payload(line, meta.source, meta.target, meta.purpose)] + ParseFrom(rest, NoMeta);
      j := PayloadLineAt(rest, NoMeta, p);
    }
    assert rest[j] == toks[j + 1];
    i := j + 1;
  }

  /** The reset after a payload: what follows it parses as if the file started there. */
  lemma {:induction false} ResetAfterPayload(a: seq<string>, p: string, b: seq<string>, meta: Meta)
    requires IsPayloadLine(TrimSpace(p))
    ensures ParseFrom(a + [p] + b, meta) == ParseFrom(a + [p], meta) + ParseFrom(b, NoMeta)
  {
    if a == [] {
      assert [p] + b == [p] + b;
      assert ([p] + b)[1..] == b;
      assert [p][1..] == [];
      assert a + [p] + b == [p] + b;
      assert a + [p] == [p];
    } else {
      var line := TrimSpace(a[0]);
      assert (a + [p] + b)[0] == a[0] && (a + [p])[0] == a[0];
      assert (a + [p] + b)[1..] == a[1..] + [p] + b;
      assert (a + [p])[1..] == a[1..] + [p];
      if line == "" {
        ResetAfterPayload(a[1..], p, b, meta);
      } else if HasPrefix(line, "#") {
        ResetAfterPayload(a[1..], p, b, ApplyComment(meta, line));
      } else {
        ResetAfterPayload(a[1..], p, b, NoMeta);
      }
    }
  }

  /** A later comment for the same key overrides an earlier one. */
  lemma LaterCommentOverrides(meta: Meta, c1: string, c2: string)
    requires HasPrefix(c1, "#") && HasPrefix(c2, "#")
    requires CommentEntry(c1).Some? && CommentEntry(c2).Some? && CommentEntry(c1).value.0 == CommentEntry(c2).value.0
    ensures ApplyComment(ApplyComment(meta, c1), c2) == ApplyComment(meta, c2)
  {
  }

  /** A comment with no colon or with another key leaves the metadata alone. */
  lemma OtherCommentsIgnored(meta: Meta, c: string)
    requires HasPrefix(c, "#")
    requires CommentEntry(c).Some? ==> CommentEntry(c).value.0 !in {"source", "target", "purpose"}
    ensures ApplyComment(meta, c) == meta
  {
  }

  /** A payload line takes exactly the metadata collected since the previous payload; blank
      lines among the comments are skipped and keep what was collected. */
  lemma {:induction false} MetadataAttaches(cs: seq<string>, p: string, meta: Meta)
    requires forall i :: 0 <= i < |cs| ==> TrimSpace(cs[i]) == "" || HasPrefix(TrimSpace(cs[i]), "#")
    requires IsPayloadLine(TrimSpace(p))
    ensures ParseFrom(cs + [p], meta) == [Payload(TrimSpace(p), CollectMeta(cs, meta).source,
                                                  CollectMeta(cs, meta).target, CollectMeta(cs, meta).purpose)]
  {
    if cs == [] {
      assert cs + [p] == [p];
      assert [p][1..] == [];
    } else {
      assert (cs + [p])[1..] == cs[1..] + [p];
      if TrimSpace(cs[0]) == "" {
        MetadataAttaches(cs[1..], p, meta);
      } else {
        MetadataAttaches(cs[1..], p, ApplyComment(meta, TrimSpace(cs[0])));
      }
    }
  }

  /** The metadata after a run of comment and blank lines. */
  function CollectMeta(cs: seq<string>, meta: Meta): Meta
    requires forall i :: 0 <= i < |cs| ==> TrimSpace(cs[i]) == "" || HasPrefix(TrimSpace(cs[i]), "#")
  {
    if cs == [] then meta
    else if TrimSpace(cs[0]) == "" then CollectMeta(cs[1..], meta)
    else CollectMeta(cs[1..], ApplyComment(meta, TrimSpace(cs[0])))
  }
}
