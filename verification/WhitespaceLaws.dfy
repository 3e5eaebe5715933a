/** The whitespace pass keeps every word, keeps every non-empty fenced line, never grows the
    text, and changes nothing when it is run again. */
module WhitespaceLaws {
  import opened Whitespace

  // ---------------------------------------------------------------------------------------
  // The blank-line cap, seen line by line
  // ---------------------------------------------------------------------------------------

  /** Removes the empty lines that would make a third newline in a row. */
  function DropBlank(lines: seq<string>, run: nat): (r: seq<string>)
    ensures lines != [] ==> r != []
    ensures |r| <= |lines|
  {
    if |lines| <= 1 then lines
    else if lines[0] != "" then [lines[0]] + DropBlank(lines[1..], 1)
    else if run >= 2 then DropBlank(lines[1..], 2)
    else [""] + DropBlank(lines[1..], run + 1)
  }

  lemma {:induction false} CapSkipsLine(line: string, s: string, run: nat)
    requires OneLine(line) && line != ""
    ensures CapNewlines(line + s, run) == line + CapNewlines(s, 0)
  {
    assert (line + s)[1..] == line[1..] + s;
    if |line| > 1 {
      CapSkipsLine(line[1..], s, 0);
    } else {
      assert line[1..] + s == s;
    }
  }

  lemma {:induction false} CapIsDropBlank(lines: seq<string>, run: nat)
    requires lines != [] && AllOneLine(lines) && run <= 2
    ensures CapNewlines(JoinLines(lines), run) == JoinLines(DropBlank(lines, run))
  {
    var line := lines[0];
    if |lines| == 1 {
      if line != "" {
        CapSkipsLine(line, "", run);
        assert line + "" == line;
      }
    } else {
      var rest := JoinLines(lines[1..]);
      if line != "" {
        CapIsDropBlank(lines[1..], 1);
        CapSkipsLine(line, "\n" + rest, run);
        assert JoinLines(lines) == line + ("\n" + rest);
        CapNewlineStep(rest, 0);
        assert line + ("\n" + CapNewlines(rest, 1)) == line + "\n" + CapNewlines(rest, 1);
      } else {
        CapIsDropBlank(lines[1..], if run == 2 then 2 else run + 1);
        assert JoinLines(lines) == "\n" + rest;
        CapNewlineStep(rest, run);
      }
    }
  }

  lemma {:induction false} SqueezeOneLine(line: string, afterSpace: bool)
    requires OneLine(line)
    ensures OneLine(Squeeze(line, afterSpace))
  {
    if line != "" {
      SqueezeOneLine(line[1..], IsBlank(line[0]));
    }
  }

  lemma {:induction false} TrimEndIsPrefix(s: string)
    ensures TrimEnd(s) <= s
  {
    if s != [] && IsSpace(s[|s| - 1]) {
      TrimEndIsPrefix(s[..|s| - 1]);
    }
  }

  lemma {:induction false} TidyLinesOneLine(lines: seq<string>, inFence: bool)
    requires AllOneLine(lines)
    ensures AllOneLine(TidyLines(lines, inFence))
  {
    if lines != [] {
      SqueezeOneLine(lines[0], false);
      TrimEndIsPrefix(Squeeze(lines[0], false));
      TidyLinesOneLine(lines[1..], inFence != IsFence(lines[0]));
    }
  }

  /** The lines of the output, from the lines of the input. */
  lemma LinesOfCollapse(s: string)
    ensures var kept := DropBlank(TidyLines(SplitLines(s), false), 0);
            Collapse(s) == JoinLines(kept) && AllOneLine(kept) && SplitLines(Collapse(s)) == kept
  {
    SplitGivesLines(s);
    TidyLinesOneLine(SplitLines(s), false);
    CapIsDropBlank(TidyLines(SplitLines(s), false), 0);
    DropBlankOneLine(TidyLines(SplitLines(s), false), 0);
    SplitJoin(DropBlank(TidyLines(SplitLines(s), false), 0));
  }

  lemma {:induction false} DropBlankOneLine(lines: seq<string>, run: nat)
    requires AllOneLine(lines)
    ensures AllOneLine(DropBlank(lines, run))
  {
    if |lines| > 1 {
      DropBlankOneLine(lines[1..], if lines[0] != "" then 1 else if run >= 2 then 2 else run + 1);
    }
  }

  // ---------------------------------------------------------------------------------------
  // Idempotence
  // ---------------------------------------------------------------------------------------

  lemma {:induction false} SqueezeTwice(line: string, afterSpace: bool)
    ensures Squeeze(Squeeze(line, afterSpace), afterSpace) == Squeeze(line, afterSpace)
  {
    if line != "" {
      var rest := Squeeze(line[1..], IsBlank(line[0]));
      SqueezeTwice(line[1..], IsBlank(line[0]));
      if IsBlank(line[0]) && afterSpace {
        assert Squeeze(line, afterSpace) == rest;
      } else {
        assert Squeeze(line, afterSpace)[1..] == rest;
      }
    }
  }

  /** A prefix of a squeezed line is squeezed. */
  lemma {:induction false} SqueezedPrefix(line: string, k: nat, afterSpace: bool)
    requires k <= |line| && Squeeze(line, afterSpace) == line
    ensures Squeeze(line[..k], afterSpace) == line[..k]
  {
    if k > 0 {
      SqueezeShorter(line[1..], IsBlank(line[0]));
      assert IsBlank(line[0]) && afterSpace ==> |Squeeze(line, afterSpace)| < |line|;
      assert Squeeze(line, afterSpace)[1..] == Squeeze(line[1..], IsBlank(line[0]));
      SqueezedPrefix(line[1..], k - 1, IsBlank(line[0]));
      assert line[..k][1..] == line[1..][..k - 1];
    }
  }

  lemma {:induction false} SqueezeShorter(line: string, afterSpace: bool)
    ensures |Squeeze(line, afterSpace)| <= |line|
  {
    if line != "" {
      SqueezeShorter(line[1..], IsBlank(line[0]));
    }
  }

  lemma {:induction false} TrimEndTwice(s: string)
    ensures TrimEnd(TrimEnd(s)) == TrimEnd(s)
  {
    if s != [] && IsSpace(s[|s| - 1]) {
      TrimEndTwice(s[..|s| - 1]);
    }
  }

  lemma TidyTwice(line: string)
    ensures Tidy(Tidy(line)) == Tidy(line)
  {
    var q := Squeeze(line, false);
    SqueezeTwice(line, false);
    TrimEndIsPrefix(q);
    SqueezedPrefix(q, |TrimEnd(q)|, false);
    assert q[..|TrimEnd(q)|] == TrimEnd(q);
    TrimEndTwice(q);
  }

  /** The fence test looks at the first non-space characters, which squeezing leaves in place. */
  lemma {:induction false} SqueezeKeepsFence(line: string, afterSpace: bool)
    ensures IsFence(Squeeze(line, afterSpace)) == IsFence(line)
  {
    if line != "" {
      var rest := Squeeze(line[1..], IsBlank(line[0]));
      SqueezeKeepsFence(line[1..], IsBlank(line[0]));
      if IsBlank(line[0]) && afterSpace {
        assert Squeeze(line, afterSpace) == rest;
      } else if IsSpace(line[0]) {
        assert Squeeze(line, afterSpace)[1..] == rest;
      } else {
        SqueezeKeepsStart(line, |FENCE|);
      }
    }
  }

  /** A run of backticks at the front stays at the front, and none is created there. */
  lemma {:induction false} SqueezeKeepsStart(line: string, k: nat)
    requires k <= |FENCE|
    ensures FENCE[..k] <= Squeeze(line, false) <==> FENCE[..k] <= line
  {
    if k > 0 && line != "" {
      assert FENCE[..k] == [FENCE[0]] + FENCE[..k - 1];
      if !IsBlank(line[0]) {
        SqueezeKeepsStart(line[1..], k - 1);
        assert Squeeze(line, false)[1..] == Squeeze(line[1..], false);
      }
    }
  }

  lemma {:induction false} TrimEndKeepsFence(s: string)
    ensures IsFence(TrimEnd(s)) == IsFence(s)
  {
    if s != [] && IsSpace(s[|s| - 1]) {
      TrimEndKeepsFence(s[..|s| - 1]);
      var t, c := TrimStart(s[..|s| - 1]), s[|s| - 1];
      TrimStartSnoc(s[..|s| - 1], c);
      assert s[..|s| - 1] + [c] == s;
      assert FENCE[2] == '`';
      assert FENCE <= t + [c] <==> FENCE <= t;
    }
  }

  lemma {:induction false} TrimStartSnoc(s: string, c: char)
    requires IsSpace(c)
    ensures TrimStart(s + [c]) == if TrimStart(s) == "" then "" else TrimStart(s) + [c]
  {
    if s == [] {
      assert s + [c] == [c];
    } else {
      assert (s + [c])[1..] == s[1..] + [c];
      if IsSpace(s[0]) {
        TrimStartSnoc(s[1..], c);
      }
    }
  }

  lemma TidyKeepsFence(line: string)
    ensures IsFence(Tidy(line)) == IsFence(line)
  {
    SqueezeKeepsFence(line, false);
    TrimEndKeepsFence(Squeeze(line, false));
  }

  lemma {:induction false} TidyDropTwice(lines: seq<string>, inFence: bool, run: nat)
    requires run <= 2
    ensures var kept := DropBlank(TidyLines(lines, inFence), run);
            TidyLines(kept, inFence) == kept && DropBlank(kept, run) == kept
  {
    if lines != [] {
      var line, after := lines[0], inFence != IsFence(lines[0]);
      var tidied := if IsFence(line) || inFence then line else Tidy(line);
      TidyTwice(line);
      TidyKeepsFence(line);
      var rest := TidyLines(lines[1..], after);
      assert TidyLines(lines, inFence) == [tidied] + rest;
      if |lines| > 1 {
        var next := if tidied != "" then 1 else if run >= 2 then 2 else run + 1;
        TidyDropTwice(lines[1..], after, next);
        assert DropBlank([tidied] + rest, run) ==
               (if tidied == "" && run >= 2 then [] else [tidied]) + DropBlank(rest, next);
      }
    }
  }

  /** Running the pass on its own output changes nothing. */
  lemma CollapseIsIdempotent(s: string)
    ensures Collapse(Collapse(s)) == Collapse(s)
  {
    LinesOfCollapse(s);
    var kept := DropBlank(TidyLines(SplitLines(s), false), 0);
    TidyDropTwice(SplitLines(s), false, 0);
    CapIsDropBlank(kept, 0);
  }

  // ---------------------------------------------------------------------------------------
  // Size
  // ---------------------------------------------------------------------------------------

  function TotalLength(lines: seq<string>): nat {
    if lines == [] then 0 else |lines[0]| + TotalLength(lines[1..])
  }

  lemma {:induction false} JoinLength(lines: seq<string>)
    requires lines != []
    ensures |JoinLines(lines)| == TotalLength(lines) + |lines| - 1
  {
    if |lines| > 1 {
      JoinLength(lines[1..]);
    }
  }

  lemma {:induction false} CapShorter(s: string, run: nat)
    ensures |CapNewlines(s, run)| <= |s|
  {
    if s != [] {
      CapShorter(s[1..], if s[0] != '\n' then 0 else if run >= 2 then 2 else run + 1);
    }
  }

  lemma {:induction false} TidyShorter(lines: seq<string>, inFence: bool)
    ensures TotalLength(TidyLines(lines, inFence)) <= TotalLength(lines)
  {
    if lines != [] {
      SqueezeShorter(lines[0], false);
      TrimEndIsPrefix(Squeeze(lines[0], false));
      TidyShorter(lines[1..], inFence != IsFence(lines[0]));
    }
  }

  /** The pass never lengthens a text. */
  lemma CollapseNeverGrows(s: string)
    ensures |Collapse(s)| <= |s|
  {
    var lines := SplitLines(s);
    JoinSplit(s);
    JoinLength(lines);
    TidyShorter(lines, false);
    JoinLength(TidyLines(lines, false));
    CapShorter(JoinLines(TidyLines(lines, false)), 0);
  }

  // ---------------------------------------------------------------------------------------
  // Words
  // ---------------------------------------------------------------------------------------

  function Flush(word: string): seq<string> {
    if word == "" then [] else [word]
  }

  function WordsFrom(s: string, word: string): seq<string> {
    if s == [] then Flush(word)
    else if IsSpace(s[0]) then Flush(word) + WordsFrom(s[1..], "")
    else WordsFrom(s[1..], word + [s[0]])
  }

  /** The whitespace-separated words of a text, in order. */
  function Words(s: string): seq<string> { WordsFrom(s, "") }

  function WordsOfLines(lines: seq<string>): seq<string> {
    if lines == [] then [] else Words(lines[0]) + WordsOfLines(lines[1..])
  }

  lemma {:induction false} WordsSplitAtSpace(a: string, c: char, b: string, word: string)
    requires IsSpace(c)
    ensures WordsFrom(a + [c] + b, word) == WordsFrom(a, word) + Words(b)
  {
    var s := a + [c] + b;
    if a == [] {
      assert s[1..] == b;
    } else {
      assert s[1..] == a[1..] + [c] + b;
      WordsSplitAtSpace(a[1..], c, b, if IsSpace(a[0]) then "" else word + [a[0]]);
    }
  }

  lemma {:induction false} WordsOfJoin(lines: seq<string>)
    requires lines != []
    ensures Words(JoinLines(lines)) == WordsOfLines(lines)
  {
    if |lines| > 1 {
      WordsOfJoin(lines[1..]);
      WordsSplitAtSpace(lines[0], '\n', JoinLines(lines[1..]), "");
    }
  }

  lemma {:induction false} SqueezeKeepsWords(line: string, afterSpace: bool, word: string)
    requires afterSpace ==> word == ""
    ensures WordsFrom(Squeeze(line, afterSpace), word) == WordsFrom(line, word)
  {
    if line != "" {
      var c, rest := line[0], Squeeze(line[1..], IsBlank(line[0]));
      SqueezeKeepsWords(line[1..], IsBlank(c), if IsSpace(c) then "" else word + [c]);
      if IsBlank(c) && afterSpace {
        assert Squeeze(line, afterSpace) == rest;
      } else {
        assert Squeeze(line, afterSpace)[1..] == rest;
      }
    }
  }

  lemma {:induction false} TrimEndKeepsWords(s: string)
    ensures Words(TrimEnd(s)) == Words(s)
  {
    if s != [] && IsSpace(s[|s| - 1]) {
      TrimEndKeepsWords(s[..|s| - 1]);
      WordsSplitAtSpace(s[..|s| - 1], s[|s| - 1], "", "");
      assert s == s[..|s| - 1] + [s[|s| - 1]] + "";
    }
  }

  lemma {:induction false} TidyKeepsWords(lines: seq<string>, inFence: bool)
    ensures WordsOfLines(TidyLines(lines, inFence)) == WordsOfLines(lines)
  {
    if lines != [] {
      SqueezeKeepsWords(lines[0], false, "");
      TrimEndKeepsWords(Squeeze(lines[0], false));
      TidyKeepsWords(lines[1..], inFence != IsFence(lines[0]));
    }
  }

  lemma {:induction false} DropBlankKeepsWords(lines: seq<string>, run: nat)
    ensures WordsOfLines(DropBlank(lines, run)) == WordsOfLines(lines)
  {
    if |lines| > 1 {
      DropBlankKeepsWords(lines[1..], if lines[0] != "" then 1 else if run >= 2 then 2 else run + 1);
    }
  }

  /** The pass loses no word, adds none, and keeps their order. */
  lemma CollapseKeepsWords(s: string)
    ensures Words(Collapse(s)) == Words(s)
  {
    var lines := SplitLines(s);
    LinesOfCollapse(s);
    JoinSplit(s);
    WordsOfJoin(lines);
    WordsOfJoin(DropBlank(TidyLines(lines, false), 0));
    TidyKeepsWords(lines, false);
    DropBlankKeepsWords(TidyLines(lines, false), 0);
  }

  // ---------------------------------------------------------------------------------------
  // Fenced lines
  // ---------------------------------------------------------------------------------------

  /** The fence lines and the non-empty lines inside fences, in order. */
  function FencedLines(lines: seq<string>, inFence: bool): seq<string> {
    if lines == [] then []
    else (if IsFence(lines[0]) || (inFence && lines[0] != "") then [lines[0]] else []) +
         FencedLines(lines[1..], inFence != IsFence(lines[0]))
  }

  lemma {:induction false} TidyKeepsFenced(lines: seq<string>, inFence: bool)
    ensures FencedLines(TidyLines(lines, inFence), inFence) == FencedLines(lines, inFence)
  {
    if lines != [] {
      TidyKeepsFence(lines[0]);
      TidyKeepsFenced(lines[1..], inFence != IsFence(lines[0]));
      assert TidyLines(lines, inFence)[1..] == TidyLines(lines[1..], inFence != IsFence(lines[0]));
    }
  }

  lemma {:induction false} DropBlankKeepsFenced(lines: seq<string>, run: nat, inFence: bool)
    ensures FencedLines(DropBlank(lines, run), inFence) == FencedLines(lines, inFence)
  {
    if |lines| > 1 {
      DropBlankKeepsFenced(lines[1..], if lines[0] != "" then 1 else if run >= 2 then 2 else run + 1,
                           inFence != IsFence(lines[0]));
    }
  }

  /** Fence lines and non-empty fenced lines survive verbatim and in order, and no others appear. */
  lemma CollapseKeepsFencedLines(s: string)
    ensures FencedLines(SplitLines(Collapse(s)), false) == FencedLines(SplitLines(s), false)
  {
    LinesOfCollapse(s);
    TidyKeepsFenced(SplitLines(s), false);
    DropBlankKeepsFenced(TidyLines(SplitLines(s), false), 0, false);
  }

  /** The fence lines and all lines inside fences, empty ones too. */
  function FencedContent(lines: seq<string>, inFence: bool): seq<string> {
    if lines == [] then []
    else (if IsFence(lines[0]) || inFence then [lines[0]] else []) +
         FencedContent(lines[1..], inFence != IsFence(lines[0]))
  }

  /** Inside fences no empty line follows another, but for one that ends the text. */
  predicate NoDoubleBlank(lines: seq<string>) {
    forall i :: 0 < i < |lines| - 1 && FenceBefore(lines, i) ==> !(lines[i - 1] == "" && lines[i] == "")
  }

  /** The same, line by line; `run` newlines (counted up to two) came before the first line. */
  predicate Spared(lines: seq<string>, inFence: bool, run: nat) {
    |lines| <= 1 ||
    (!(inFence && lines[0] == "" && run >= 2) &&
     Spared(lines[1..], inFence != IsFence(lines[0]), if lines[0] != "" then 1 else if run >= 2 then 2 else run + 1))
  }

  lemma {:induction false} TidyKeepsContent(lines: seq<string>, inFence: bool)
    ensures FencedContent(TidyLines(lines, inFence), inFence) == FencedContent(lines, inFence)
  {
    if lines != [] {
      var after := inFence != IsFence(lines[0]);
      TidyKeepsFence(lines[0]);
      TidyKeepsContent(lines[1..], after);
      assert TidyLines(lines, inFence)[1..] == TidyLines(lines[1..], after);
    }
  }

  lemma {:induction false} ContentShrinks(lines: seq<string>, inFence: bool, run: nat)
    ensures |FencedContent(DropBlank(lines, run), inFence)| <= |FencedContent(lines, inFence)|
    ensures FencedContent(DropBlank(lines, run), inFence) == FencedContent(lines, inFence) <==> Spared(lines, inFence, run)
  {
    if |lines| > 1 {
      var line, after := lines[0], inFence != IsFence(lines[0]);
      var next := if line != "" then 1 else if run >= 2 then 2 else run + 1;
      ContentShrinks(lines[1..], after, next);
      if line == "" && run >= 2 {
        BlankIsNoFence();
      } else {
        assert DropBlank(lines, run)[1..] == DropBlank(lines[1..], next);
        SameHead(if IsFence(line) || inFence then [line] else [],
                 FencedContent(DropBlank(lines[1..], next), after), FencedContent(lines[1..], after));
      }
    }
  }

  lemma BlankIsNoFence()
    ensures !IsFence("")
  {
  }

  lemma SameHead(head: seq<string>, a: seq<string>, b: seq<string>)
    ensures head + a == head + b <==> a == b
  {
    assert (head + a)[|head|..] == a && (head + b)[|head|..] == b;
  }

  /** The newlines counted before line `index`. */
  function RunBefore(lines: seq<string>, index: nat): (run: nat)
    requires index <= |lines|
    ensures run <= 2
  {
    if index == 0 then 0
    else if lines[index - 1] != "" then 1
    else
      var run := RunBefore(lines, index - 1);
      if run >= 2 then 2 else run + 1
  }

  lemma {:induction false} SparedFrom(lines: seq<string>, index: nat)
    requires index <= |lines|
    ensures Spared(lines[index..], FenceBefore(lines, index), RunBefore(lines, index)) <==>
            forall i :: index <= i < |lines| - 1 && FenceBefore(lines, i) && lines[i] == "" ==> RunBefore(lines, i) < 2
    decreases |lines| - index
  {
    if |lines| - index > 1 {
      assert lines[index..][1..] == lines[index + 1..];
      SparedFrom(lines, index + 1);
    }
  }

  /** Inside a fence two newlines came before a line exactly when the line before it is empty. */
  lemma FencedRun(lines: seq<string>, i: nat)
    requires i <= |lines| && FenceBefore(lines, i)
    ensures i > 0 && (RunBefore(lines, i) == 2 <==> lines[i - 1] == "")
  {
    if lines[i - 1] == "" {
      BlankIsNoFence();
      FencedRun(lines, i - 1);
      assert RunBefore(lines, i - 1) >= 1;
    }
  }

  /** Fenced content survives, empty lines included, exactly when no empty line inside a fence follows
      another, but for one that ends the text: the blank-line loop runs inside fences too. */
  lemma FencedContentSurvives(s: string)
    ensures FencedContent(SplitLines(Collapse(s)), false) == FencedContent(SplitLines(s), false) <==>
            NoDoubleBlank(SplitLines(s))
  {
    var lines := SplitLines(s);
    var tidied := TidyLines(lines, false);
    LinesOfCollapse(s);
    TidyKeepsContent(lines, false);
    ContentShrinks(tidied, false, 0);
    SparedFrom(tidied, 0);
    assert tidied[0..] == tidied;
    forall i | 0 <= i <= |lines|
      ensures FenceBefore(tidied, i) == FenceBefore(lines, i)
    {
      TidyKeepsFences(lines, i);
    }
    forall i: nat | i < |lines| && FenceBefore(lines, i)
      ensures i > 0 && tidied[i] == lines[i]
      ensures RunBefore(tidied, i) < 2 <==> tidied[i - 1] != ""
      ensures lines[i] == "" && tidied[i - 1] == "" ==> lines[i - 1] == ""
    {
      TidyAt(lines, i);
      FencedRun(tidied, i);
      TidyAt(lines, i - 1);
    }
  }

  lemma {:induction false} TidyKeepsFences(lines: seq<string>, index: nat)
    requires index <= |lines|
    ensures FenceBefore(TidyLines(lines, false), index) == FenceBefore(lines, index)
  {
    if index > 0 {
      TidyKeepsFences(lines, index - 1);
      TidyAt(lines, index - 1);
      TidyKeepsFence(lines[index - 1]);
    }
  }

  lemma {:induction false} FencedIsCopied(lines: seq<string>)
    requires forall i :: 0 <= i < |lines| ==> !IsFence(lines[i])
    ensures TidyLines(lines, true) == lines
  {
    if lines != [] {
      FencedIsCopied(lines[1..]);
      assert [lines[0]] + lines[1..] == lines;
    }
  }

  lemma JoinBlanks(line: string)
    ensures JoinLines([line, "", "", ""]) == line + "\n\n\n"
  {
    assert ["", "", ""][1..] == ["", ""] && ["", ""][1..] == [""];
    assert JoinLines(["", ""]) == "\n" && JoinLines(["", "", ""]) == "\n\n";
    assert [line, "", "", ""][1..] == ["", "", ""];
  }

  /** An input on which it does not: empty lines right after a fence opens. */
  lemma FencedBlankLinesCanGo(fence: string)
    requires OneLine(fence) && IsFence(fence)
    ensures Collapse(fence + "\n\n\n") == fence + "\n\n"
  {
    var lines := [fence, "", "", ""];
    JoinBlanks(fence);
    SplitJoin(lines);
    BlankIsNoFence();
    FencedIsCopied(["", "", ""]);
    assert lines[1..] == ["", "", ""] && [fence] + lines[1..] == lines;
    assert TidyLines(lines, false) == lines;
    CapsToTwo(fence);
  }

  lemma CapsToTwo(line: string)
    requires OneLine(line) && line != ""
    ensures CapNewlines(line + "\n\n\n", 0) == line + "\n\n"
  {
    CapSkipsLine(line, "\n\n\n", 0);
    CapNewlineStep("\n\n", 0);
    CapNewlineStep("\n", 1);
    CapNewlineStep("", 2);
  }

  // ---------------------------------------------------------------------------------------
  // Nothing left to remove
  // ---------------------------------------------------------------------------------------

  /** No tab, no two blanks in a row, and no whitespace at the end. */
  predicate NoSlack(line: string) {
    && '\t' !in line
    && (forall i :: 0 < i < |line| ==> !(IsBlank(line[i - 1]) && IsBlank(line[i])))
    && (line != "" ==> !IsSpace(line[|line| - 1]))
  }

  lemma {:induction false} SqueezeNoSlack(line: string, afterSpace: bool)
    ensures var q := Squeeze(line, afterSpace);
            && '\t' !in q
            && (forall i :: 0 < i < |q| ==> !(IsBlank(q[i - 1]) && IsBlank(q[i])))
            && (afterSpace && q != "" ==> !IsBlank(q[0]))
  {
    if line != "" {
      SqueezeNoSlack(line[1..], IsBlank(line[0]));
    }
  }

  lemma {:induction false} TrimEndEnds(s: string)
    ensures TrimEnd(s) != "" ==> !IsSpace(TrimEnd(s)[|TrimEnd(s)| - 1])
  {
    if s != [] && IsSpace(s[|s| - 1]) {
      TrimEndEnds(s[..|s| - 1]);
    }
  }

  lemma {:induction false} CappedHasNoTriple(s: string, run: nat)
    requires run <= 2
    ensures var c := CapNewlines(s, run);
            !HasTriple(c) && (run >= 1 ==> !("\n\n" <= c)) && (run == 2 ==> !("\n" <= c))
  {
    if s != [] {
      CappedHasNoTriple(s[1..], if s[0] != '\n' then 0 else if run == 2 then 2 else run + 1);
    }
  }

  lemma TidiedHasNoSlack(line: string)
    requires Tidy(line) == line
    ensures NoSlack(line)
  {
    var q := Squeeze(line, false);
    SqueezeNoSlack(line, false);
    TrimEndIsPrefix(q);
    TrimEndEnds(q);
    assert forall i :: 0 <= i < |line| ==> line[i] == q[i];
  }

  /** In the output no three newlines meet, and every line outside a fence is free of slack. */
  lemma CollapseLeavesNoSlack(s: string)
    ensures !HasTriple(Collapse(s))
    ensures var lines := SplitLines(Collapse(s));
            forall i :: 0 <= i < |lines| && !FenceBefore(lines, i) && !IsFence(lines[i]) ==> NoSlack(lines[i])
  {
    CappedHasNoTriple(JoinLines(TidyLines(SplitLines(s), false)), 0);
    LinesOfCollapse(s);
    TidyDropTwice(SplitLines(s), false, 0);
    TidyFixpoint(SplitLines(Collapse(s)));
  }

  lemma TidyFixpoint(lines: seq<string>)
    requires TidyLines(lines, false) == lines
    ensures forall i :: 0 <= i < |lines| && !FenceBefore(lines, i) && !IsFence(lines[i]) ==> NoSlack(lines[i])
  {
    forall i | 0 <= i < |lines| && !FenceBefore(lines, i) && !IsFence(lines[i])
      ensures NoSlack(lines[i])
    {
      TidyAt(lines, i);
      TidiedHasNoSlack(lines[i]);
    }
  }
}
