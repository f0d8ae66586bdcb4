/** The parts of Go's `strings` and `bufio` packages that the core relies on, over ASCII. */
module Strs {

  predicate HasPrefix(s: string, p: string)
  {
    |p| <= |s| && s[..|p|] == p
  }

  predicate HasSuffix(s: string, p: string)
  {
    |p| <= |s| && s[|s| - |p|..] == p
  }

  /** `sub` occurs in `s` starting at position `i`. */
  predicate OccursAt(s: string, sub: string, i: int)
  {
    0 <= i <= |s| - |sub| && s[i..i + |sub|] == sub
  }

  /** `strings.Contains`: `sub` occurs in `s` at some position. */
  predicate Contains(s: string, sub: string)
  {
    exists i | 0 <= i <= |s| - |sub| :: OccursAt(s, sub, i)
  }

  /** `strings.TrimPrefix`: removes one leading `p`, if present. */
  function TrimPrefix(s: string, p: string): (r: string)
    ensures HasPrefix(s, p) ==> s == p + r
    ensures !HasPrefix(s, p) ==> r == s
  {
    if HasPrefix(s, p) then s[|p|..] else s
  }

  function LowerChar(c: char): char
  {
    if 'A' <= c <= 'Z' then (c as int + 32) as char else c
  }

  /** `strings.ToLower`, ASCII letters only. */
  function ToLower(s: string): (r: string)
    ensures |r| == |s|
  {
    seq(|s|, i requires 0 <= i < |s| => LowerChar(s[i]))
  }

  /** `strings.EqualFold`, ASCII case folding only. */
  predicate EqualFold(a: string, b: string)
  {
    ToLower(a) == ToLower(b)
  }

  /** The ASCII characters `unicode.IsSpace` accepts. */
  const SpaceChars: set<char> := {' ', '\t', '\n', '\r', 11 as char, 12 as char}

  /** Drops the leading characters of `cut`. */
  function TrimLeftSet(s: string, cut: set<char>): (r: string)
    ensures |r| <= |s|
    ensures r == "" || r[0] !in cut
  {
    if s != [] && s[0] in cut then TrimLeftSet(s[1..], cut) else s
  }

  /** Drops the trailing characters of `cut`; what is left starts as `s` does. */
  function TrimRightSet(s: string, cut: set<char>): (r: string)
    ensures |r| <= |s|
    ensures r == "" || (r[0] == s[0] && r[|r| - 1] !in cut)
  {
    if s != [] && s[|s| - 1] in cut then TrimRightSet(s[..|s| - 1], cut) else s
  }

  /** `strings.Trim(s, cutset)`: drops leading and trailing characters of `cut`. */
  function TrimSet(s: string, cut: set<char>): (r: string)
    ensures r == "" || (r[0] !in cut && r[|r| - 1] !in cut)
  {
    var l := TrimLeftSet(s, cut);
    var r := TrimRightSet(l, cut);
    assert r != "" ==> r[0] == l[0];
    r
  }

  /** `strings.TrimSpace`. */
  function TrimSpace(s: string): (r: string)
    ensures r == "" || (r[0] !in SpaceChars && r[|r| - 1] !in SpaceChars)
  {
    TrimSet(s, SpaceChars)
  }

  /** The position of the first `c` in `s`. */
  function IndexOf(s: string, c: char): (i: nat)
    requires c in s
    ensures i < |s| && s[i] == c && c !in s[..i]
  {
    if s[0] == c then 0 else 1 + IndexOf(s[1..], c)
  }

  /** `strings.Split(s, sep)` for a one-character separator: at least one piece, none holding `sep`. */
  function Split(s: string, sep: char): (r: seq<string>)
    ensures |r| >= 1
    ensures forall p :: p in r ==> sep !in p
    decreases |s|
  {
    if sep !in s then [s]
    else
      var i := IndexOf(s, sep);
      [s[..i]] + Split(s[i + 1..], sep)
  }

  /** `strings.SplitN(s, sep, 2)`: two pieces around the first `sep`, or `s` alone. */
  function SplitN2(s: string, sep: char): (r: seq<string>)
    ensures |r| == 2 <==> sep in s
    ensures |r| == 1 <==> sep !in s
    ensures sep !in s ==> r == [s]
    ensures sep in s ==> sep !in r[0] && s == r[0] + [sep] + r[1]
  {
    if sep !in s then [s]
    else
      var i := IndexOf(s, sep);
      assert s == s[..i] + [sep] + s[i + 1..];
      [s[..i], s[i + 1..]]
  }

  /** `strings.Join(ss, sep)`. */
  function Join(ss: seq<string>, sep: string): string
  {
    if |ss| == 0 then "" else if |ss| == 1 then ss[0] else ss[0] + sep + Join(ss[1..], sep)
  }

  /** `strings.Repeat` with a single-character string; Go panics on a negative count. */
  function Repeat(c: char, n: int): (r: string)
    requires n >= 0
    ensures |r| == n && forall i :: 0 <= i < n ==> r[i] == c
  {
    seq(n, _ => c)
  }

  /** The length of the leading run of non-space characters. */
  function WordLen(s: string): (k: nat)
    ensures k <= |s|
    ensures forall i :: 0 <= i < k ==> s[i] !in SpaceChars
    ensures k < |s| ==> s[k] in SpaceChars
  {
    if s == [] || s[0] in SpaceChars then 0 else 1 + WordLen(s[1..])
  }

  /** A non-empty run of non-space characters. */
  predicate IsWord(w: string)
  {
    w != "" && forall c :: c in w ==> c !in SpaceChars
  }

  /** `strings.Fields`: the maximal runs of non-space characters. */
  function Fields(s: string): (r: seq<string>)
    ensures forall w :: w in r ==> IsWord(w)
    decreases |s|
  {
    var t := TrimLeftSet(s, SpaceChars);
    if t == "" then []
    else
      var k := WordLen(t);
      var w := t[..k];
      assert IsWord(w) by {
        forall c | c in w
          ensures c !in SpaceChars
        {
          var i :| 0 <= i < k && w[i] == c;
          assert t[i] == c;
        }
      }
      var rest := Fields(t[k..]);
      [w] + rest
  }

  function DropCR(s: string): string
  {
    if s != [] && s[|s| - 1] == '\r' then s[..|s| - 1] else s
  }

  /** The tokens a `bufio.Scanner` with the default `ScanLines` yields: the text split at newlines,
      without a final empty piece, each with one trailing carriage return dropped. */
  function ScanLines(text: string): (r: seq<string>)
  {
    var ps := Split(text, '\n');
    var ls := if ps[|ps| - 1] == "" then ps[..|ps| - 1] else ps;
    seq(|ls|, i requires 0 <= i < |ls| => DropCR(ls[i]))
  }
}
