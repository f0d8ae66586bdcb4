/** The speech-bubble formatter of the bundled banner utility: greedy word wrap of a message to
    a maximum width, then an ASCII bubble whose rows are padded to the longest line. Lengths are
    counted in characters, which equals Go's byte length for ASCII text. */
module Bubble {
  import opened Strs

  /** Greedy wrapping: `cur` is the line being filled and `rest` the words still to place; a word
      joins the line iff the line, one space and the word fit in `maxWidth`. */
  function WrapFrom(cur: string, rest: seq<string>, maxWidth: int): (lines: seq<string>)
    ensures |lines| >= 1
    decreases |rest|
  {
    if rest == [] then [cur]
    else if |cur| + 1 + |rest[0]| > maxWidth then [cur] + WrapFrom(rest[0], rest[1..], maxWidth)
    else WrapFrom(cur + " " + rest[0], rest[1..], maxWidth)
  }

  /** The wrapped lines of a non-empty word list. */
  function Wrap(words: seq<string>, maxWidth: int): seq<string>
    requires words != []
  {
    WrapFrom(words[0], words[1..], maxWidth)
  }

  /** The length of the longest line, 0 for none. */
  function MaxLen(lines: seq<string>): nat
  {
    if lines == [] then 0
    else
      var m := MaxLen(lines[..|lines| - 1]);
      var last := lines[|lines| - 1];
      if |last| > m then |last| else m
  }

  /** `MaxLen` is the length of a longest line: no line is longer, and some line is that long. */
  lemma {:induction false} MaxLenIsMax(lines: seq<string>)
    ensures forall j :: 0 <= j < |lines| ==> |lines[j]| <= MaxLen(lines)
    ensures lines != [] ==> exists j :: 0 <= j < |lines| && |lines[j]| == MaxLen(lines)
  {
    if lines != [] {
      var n := |lines| - 1;
      MaxLenIsMax(lines[..n]);
      assert forall j :: 0 <= j < n ==> lines[..n][j] == lines[j];
      if |lines[n]| >= MaxLen(lines[..n]) {
        assert |lines[n]| == MaxLen(lines);
      } else {
        var j :| 0 <= j < n && |lines[..n][j]| == MaxLen(lines[..n]);
        assert |lines[j]| == MaxLen(lines);
      }
    }
  }

  /** The side borders of row `i` of `n`: angle brackets for a lone line, slashes opening and
      closing a taller bubble, bars in between. */
  function Borders(i: int, n: int): (string, string)
  {
    if n == 1 then ("<", ">")
    else if i == 0 then ("/", "\\")
    else if i == n - 1 then ("\\", "/")
    else ("|", "|")
  }

  /** Row `i` of `n`: the borders around the line padded with spaces to `width`. */
  function Row(i: int, n: int, line: string, width: int): string
    requires |line| <= width
  {
    Borders(i, n).0 + " " + line + Repeat(' ', width - |line|) + " " + Borders(i, n).1 + "\n"
  }

  /** The first `k` rows of the bubble for `lines`. */
  function Rows(lines: seq<string>, k: nat, width: int): string
    requires k <= |lines|
    requires forall j :: 0 <= j < |lines| ==> |lines[j]| <= width
  {
    if k == 0 then "" else Rows(lines, k - 1, width) + Row(k - 1, |lines|, lines[k - 1], width)
  }

  function Edge(c: char, width: nat): string
  {
    " " + Repeat(c, width + 2) + "\n"
  }

  /** The whole bubble: the underscore top, the rows, the dashed bottom. */
  function Bubble(lines: seq<string>): string
  {
    MaxLenIsMax(lines);
    Edge('_', MaxLen(lines)) + Rows(lines, |lines|, MaxLen(lines)) + Edge('-', MaxLen(lines))
  }

  /** `formatMessageInBubble`: "" for a message with no words, else the bubble of the wrapped
      words. */
  method FormatMessageInBubble(message: string, maxWidth: int) returns (out: string)
    ensures Fields(message) == [] ==> out == ""
    ensures Fields(message) != [] ==> out == Bubble(Wrap(Fields(message), maxWidth))
  {
    var words := Fields(message);
    if |words| == 0 {
      return "";
    }
    var lines, longestLine := WrapWords(words, maxWidth);
    out := DrawBubble(lines, longestLine);
  }

  /** The wrapping loop of `formatMessageInBubble`, which also tracks the longest line. */
  method WrapWords(words: seq<string>, maxWidth: int) returns (lines: seq<string>, longestLine: nat)
    requires words != []
    ensures lines == Wrap(words, maxWidth)
    ensures longestLine == MaxLen(lines)
  {
    lines := [];
    longestLine := 0;
    var currentLine := words[0];
    for i := 1 to |words|
      invariant lines + WrapFrom(currentLine, words[i..], maxWidth) == Wrap(words, maxWidth)
      invariant longestLine == MaxLen(lines)
    {
      assert words[i..][1..] == words[i + 1..];
      var word := words[i];
      if |currentLine| + 1 + |word| > maxWidth {
        assert lines + [currentLine] + WrapFrom(word, words[i + 1..], maxWidth) == Wrap(words, maxWidth);
        assert (lines + [currentLine])[..|lines|] == lines;
        lines := lines + [currentLine];
        if |currentLine| > longestLine {
          longestLine := |currentLine|;
        }
        currentLine := word;
      } else {
        assert WrapFrom(currentLine, words[i..], maxWidth) == WrapFrom(currentLine + " " + word, words[i + 1..], maxWidth);
        currentLine := currentLine + " " + word;
      }
    }
    assert words[|words|..] == [];
    assert (lines + [currentLine])[..|lines|] == lines;
    lines := lines + [currentLine];
    if |currentLine| > longestLine {
      longestLine := |currentLine|;
    }
  }

  /** The drawing part of `formatMessageInBubble`: top edge, one padded row per line, bottom edge. */
  method DrawBubble(lines: seq<string>, longestLine: nat) returns (out: string)
    requires longestLine == MaxLen(lines)
    ensures out == Bubble(lines)
  {
    MaxLenIsMax(lines);
    out := " " + Repeat('_', longestLine + 2) + "\n";
    for i := 0 to |lines|
      invariant out == Edge('_', longestLine) + Rows(lines, i, longestLine)
    {
      var line := lines[i];
      var padding := Repeat(' ', longestLine - |line|);
      var leftBorder, rightBorder := "|", "|";
      if |lines| == 1 {
        leftBorder, rightBorder := "<", ">";
      } else if i == 0 {
        leftBorder, rightBorder := "/", "\\";
      } else if i == |lines| - 1 {
        leftBorder, rightBorder := "\\", "/";
      }
      RowStep(Edge('_', longestLine), lines, i, longestLine, leftBorder, rightBorder, padding);
      out := out + (leftBorder + " " + line + padding + " " + rightBorder + "\n");
    }
    out := out + (" " + Repeat('-', longestLine + 2) + "\n");
  }

  /** One row of the drawing loop: the borders and padding it picks make up `Row`. */
  lemma RowStep(top: string, lines: seq<string>, i: nat, width: int, left: string, right: string, padding: string)
    requires i < |lines|
    requires forall j :: 0 <= j < |lines| ==> |lines[j]| <= width
    requires (left, right) == Borders(i, |lines|)
    requires padding == Repeat(' ', width - |lines[i]|)
    ensures top + Rows(lines, i + 1, width) == top + Rows(lines, i, width) + (left + " " + lines[i] + padding + " " + right + "\n")
  {
    var row := left + " " + lines[i] + padding + " " + right + "\n";
    assert Rows(lines, i + 1, width) == Rows(lines, i, width) + row;
    assert top + (Rows(lines, i, width) + row) == top + Rows(lines, i, width) + row;
  }

  /** Wrapping only regroups the words: joined with single spaces, the lines give back the
      words joined with single spaces. */
  lemma {:induction false} WrapKeepsWords(cur: string, rest: seq<string>, maxWidth: int)
    ensures Join(WrapFrom(cur, rest, maxWidth), " ") == Join([cur] + rest, " ")
    decreases |rest|
  {
    if rest != [] {
      assert ([cur] + rest)[1..] == rest;
      if |cur| + 1 + |rest[0]| > maxWidth {
        WrapKeepsWords(rest[0], rest[1..], maxWidth);
        assert ([rest[0]] + rest[1..]) == rest;
        JoinCons(cur, WrapFrom(rest[0], rest[1..], maxWidth));
      } else {
        WrapKeepsWords(cur + " " + rest[0], rest[1..], maxWidth);
        assert ([cur + " " + rest[0]] + rest[1..])[1..] == rest[1..];
        JoinCons(cur + " " + rest[0], rest[1..]);
        JoinCons(rest[0], rest[1..]);
        JoinCons(cur, rest);
        assert [rest[0]] + rest[1..] == rest;
      }
    }
  }

  /** The wrapped lines of a word list, joined with single spaces, are the words so joined. */
  lemma WrapPreservesText(words: seq<string>, maxWidth: int)
    requires words != []
    ensures Join(Wrap(words, maxWidth), " ") == Join(words, " ")
  {
    WrapKeepsWords(words[0], words[1..], maxWidth);
    assert [words[0]] + words[1..] == words;
  }

  lemma JoinCons(x: string, xs: seq<string>)
    ensures Join([x] + xs, " ") == if xs == [] then x else x + " " + Join(xs, " ")
  {
    assert ([x] + xs)[1..] == xs;
  }

  /** A line that is not a single word fits the width: a word only joins a line it fits on. */
  lemma {:induction false} WrappedLinesFit(cur: string, rest: seq<string>, maxWidth: int, l: string)
    requires l in WrapFrom(cur, rest, maxWidth)
    ensures |l| <= maxWidth || l == cur || l in rest
    decreases |rest|
  {
    if rest != [] {
      if |cur| + 1 + |rest[0]| > maxWidth {
        if l != cur {
          WrappedLinesFit(rest[0], rest[1..], maxWidth, l);
        }
      } else {
        WrappedLinesFit(cur + " " + rest[0], rest[1..], maxWidth, l);
      }
    }
  }

  /** Every wrapped line either fits the width or is one word of the message. */
  lemma WrapLinesFitOrSingleWord(words: seq<string>, maxWidth: int, l: string)
    requires words != []
    requires l in Wrap(words, maxWidth)
    ensures |l| <= maxWidth || l in words
  {
    WrappedLinesFit(words[0], words[1..], maxWidth, l);
    if l != words[0] && l in words[1..] {
      assert l in words;
    }
  }

  /** Every row is as wide as the border: a bubble is a rectangle of `MaxLen + 5` characters per
      row, counting the newline. */
  lemma RowWidth(i: int, n: int, line: string, width: int)
    requires |line| <= width
    ensures |Row(i, n, line, width)| == width + 5
  {
  }

  lemma {:induction false} RowsWidth(lines: seq<string>, k: nat, width: int)
    requires k <= |lines|
    requires forall j :: 0 <= j < |lines| ==> |lines[j]| <= width
    ensures |Rows(lines, k, width)| == k * (width + 5)
  {
    if k > 0 {
      RowsWidth(lines, k - 1, width);
      RowWidth(k - 1, |lines|, lines[k - 1], width);
      assert k * (width + 5) == (k - 1) * (width + 5) + (width + 5);
    }
  }
}
