/** The whitespace pass of the prompt compressor: fence tracking, space squeezing, and the
    blank-line loop, with the proof that it is lossless in effect. */
module Whitespace {

  const FENCE := "```"
  const TRIPLE := "\n\n\n"

  /** Unicode White_Space, as `char::is_whitespace` has it. */
  predicate IsSpace(c: char) {
    var n := c as int;
    9 <= n <= 13 || n == 32 || n == 0x85 || n == 0xA0 || n == 0x1680 || 0x2000 <= n <= 0x200A ||
    n == 0x2028 || n == 0x2029 || n == 0x202F || n == 0x205F || n == 0x3000
  }

  // ---------------------------------------------------------------------------------------
  // Lines
  // ---------------------------------------------------------------------------------------

  function SplitLines(s: string): (lines: seq<string>)
    ensures |lines| >= 1
  {
    if s == [] then [""]
    else
      var rest := SplitLines(s[1..]);
      if s[0] == '\n' then [""] + rest else [[s[0]] + rest[0]] + rest[1..]
  }

  function JoinLines(lines: seq<string>): string {
    if |lines| == 0 then ""
    else if |lines| == 1 then lines[0]
    else lines[0] + "\n" + JoinLines(lines[1..])
  }

  predicate OneLine(line: string) { '\n' !in line }

  predicate AllOneLine(lines: seq<string>) { forall i :: 0 <= i < |lines| ==> OneLine(lines[i]) }

  lemma {:induction false} SplitGivesLines(s: string)
    ensures AllOneLine(SplitLines(s))
  {
    if s != [] {
      SplitGivesLines(s[1..]);
    }
  }

  lemma {:induction false} JoinSplit(s: string)
    ensures JoinLines(SplitLines(s)) == s
  {
    if s != [] {
      JoinSplit(s[1..]);
      var rest := SplitLines(s[1..]);
      if s[0] != '\n' && |rest| > 1 {
        assert SplitLines(s)[1..] == rest[1..];
      } else if s[0] == '\n' {
        assert SplitLines(s)[1..] == rest;
      }
    }
  }

  lemma {:induction false} SplitPrefix(line: string, s: string)
    requires OneLine(line)
    ensures SplitLines(line + s) == [line + SplitLines(s)[0]] + SplitLines(s)[1..]
  {
    if line == [] {
      assert line + s == s && line + SplitLines(s)[0] == SplitLines(s)[0];
    } else {
      SplitPrefix(line[1..], s);
      assert (line + s)[1..] == line[1..] + s;
      assert [line[0]] + (line[1..] + SplitLines(s)[0]) == line + SplitLines(s)[0];
    }
  }

  lemma {:induction false} SplitJoin(lines: seq<string>)
    requires |lines| >= 1 && AllOneLine(lines)
    ensures SplitLines(JoinLines(lines)) == lines
  {
    if |lines| == 1 {
      SplitPrefix(lines[0], "");
      assert lines[0] + "" == lines[0];
    } else {
      SplitJoin(lines[1..]);
      var rest := "\n" + JoinLines(lines[1..]);
      SplitPrefix(lines[0], rest);
      assert rest[1..] == JoinLines(lines[1..]);
      assert SplitLines(rest) == [""] + lines[1..];
      assert JoinLines(lines) == lines[0] + rest && lines[0] + "" == lines[0];
    }
  }

  // ---------------------------------------------------------------------------------------
  // One line
  // ---------------------------------------------------------------------------------------

  function TrimStart(s: string): string {
    if s == [] || !IsSpace(s[0]) then s else TrimStart(s[1..])
  }

  function TrimEnd(s: string): string {
    if s == [] || !IsSpace(s[|s| - 1]) then s else TrimEnd(s[..|s| - 1])
  }

  predicate IsFence(line: string) { FENCE <= TrimStart(line) }

  predicate IsBlank(c: char) { c == ' ' || c == '\t' }

  /** Runs of spaces and tabs become one space. */
  function Squeeze(line: string, afterSpace: bool): string {
    if line == [] then []
    else if IsBlank(line[0]) then (if afterSpace then [] else [' ']) + Squeeze(line[1..], true)
    else [line[0]] + Squeeze(line[1..], false)
  }

  function Tidy(line: string): string { TrimEnd(Squeeze(line, false)) }

  /** Every line outside a fence is tidied; fence lines and fenced lines are copied. */
  function TidyLines(lines: seq<string>, inFence: bool): (r: seq<string>)
    ensures |r| == |lines|
  {
    if lines == [] then []
    else if IsFence(lines[0]) then [lines[0]] + TidyLines(lines[1..], !inFence)
    else [if inFence then lines[0] else Tidy(lines[0])] + TidyLines(lines[1..], inFence)
  }

  // ---------------------------------------------------------------------------------------
  // Newline runs
  // ---------------------------------------------------------------------------------------

  /** Every run of newlines is cut to two; `run` newlines (counted up to two) came just before. */
  function CapNewlines(s: string, run: nat): string {
    if s == [] then []
    else if s[0] != '\n' then [s[0]] + CapNewlines(s[1..], 0)
    else if run >= 2 then CapNewlines(s[1..], 2)
    else ['\n'] + CapNewlines(s[1..], run + 1)
  }

  predicate HasTriple(s: string) {
    |s| >= 3 && (TRIPLE <= s || HasTriple(s[1..]))
  }

  /** `str::replace`: left to right, without overlap, three newlines become two. */
  function ReplaceTriples(s: string): (r: string)
    ensures |r| <= |s|
    ensures HasTriple(s) ==> |r| < |s|
  {
    if TRIPLE <= s then "\n\n" + ReplaceTriples(s[3..])
    else if s == [] then []
    else [s[0]] + ReplaceTriples(s[1..])
  }

  /** One step of the cap on a newline. */
  lemma CapNewlineStep(s: string, run: nat)
    requires run <= 2
    ensures CapNewlines("\n" + s, run) ==
            (if run == 2 then "" else "\n") + CapNewlines(s, if run == 2 then 2 else run + 1)
  {
    assert ("\n" + s)[1..] == s;
  }

  lemma {:induction false} ReplaceKeepsCap(s: string, run: nat)
    requires run <= 2
    ensures CapNewlines(ReplaceTriples(s), run) == CapNewlines(s, run)
    decreases |s|
  {
    if TRIPLE <= s {
      var t, r := s[3..], ReplaceTriples(s[3..]);
      assert s == "\n" + ("\n" + ("\n" + t));
      assert ReplaceTriples(s) == "\n" + ("\n" + r);
      var next := if run == 2 then 2 else run + 1;
      CapNewlineStep("\n" + ("\n" + t), run);
      CapNewlineStep("\n" + t, next);
      CapNewlineStep(t, 2);
      CapNewlineStep("\n" + r, run);
      CapNewlineStep(r, next);
      ReplaceKeepsCap(t, 2);
    } else if s != [] {
      var r := ReplaceTriples(s[1..]);
      assert ([s[0]] + r)[1..] == r;
      ReplaceKeepsCap(s[1..], if s[0] != '\n' then 0 else if run >= 2 then 2 else run + 1);
    }
  }

  lemma {:induction false} NoTripleIsCapped(s: string, run: nat)
    requires run <= 2 && !HasTriple(s)
    requires run == 1 ==> !("\n\n" <= s)
    requires run == 2 ==> !("\n" <= s)
    ensures CapNewlines(s, run) == s
  {
    if s != [] {
      assert run == 1 && s[0] == '\n' && |s| >= 2 ==> s[1] != '\n';
      assert s[0] == '\n' && |s| >= 3 ==> s[1] != '\n' || s[2] != '\n' by {
        assert !(TRIPLE <= s);
      }
      NoTripleIsCapped(s[1..], if s[0] == '\n' then run + 1 else 0);
    }
  }

  // ---------------------------------------------------------------------------------------
  // The pass
  // ---------------------------------------------------------------------------------------

  /** What `collapse_outside_code_fences` returns. */
  function Collapse(s: string): string {
    CapNewlines(JoinLines(TidyLines(SplitLines(s), false)), 0)
  }

  /** Whether line `index` starts inside a fence. */
  function FenceBefore(lines: seq<string>, index: nat): bool
    requires index <= |lines|
  {
    index > 0 && (FenceBefore(lines, index - 1) != IsFence(lines[index - 1]))
  }

  lemma {:induction false} TidySuffix(lines: seq<string>, index: nat)
    requires index <= |lines|
    ensures TidyLines(lines, false)[index..] == TidyLines(lines[index..], FenceBefore(lines, index))
  {
    if index > 0 {
      TidySuffix(lines, index - 1);
      var tail := lines[index - 1..];
      assert tail[1..] == lines[index..];
      assert TidyLines(tail, FenceBefore(lines, index - 1))[1..] ==
             TidyLines(tail[1..], FenceBefore(lines, index));
    }
  }

  lemma TidyAt(lines: seq<string>, index: nat)
    requires index < |lines|
    ensures TidyLines(lines, false)[index] ==
            if IsFence(lines[index]) || FenceBefore(lines, index) then lines[index] else Tidy(lines[index])
  {
    TidySuffix(lines, index);
    assert TidyLines(lines, false)[index..][0] == TidyLines(lines, false)[index];
  }

  lemma {:induction false} JoinSnoc(lines: seq<string>, line: string)
    ensures JoinLines(lines + [line]) == if lines == [] then line else JoinLines(lines) + "\n" + line
  {
    if |lines| > 1 {
      JoinSnoc(lines[1..], line);
      assert (lines + [line])[1..] == lines[1..] + [line];
    } else if |lines| == 1 {
      assert (lines + [line])[1..] == [line];
    }
  }

  /** The text copied out once the lines before `index` are done. */
  function Copied(lines: seq<string>, index: nat): string
    requires index <= |lines|
  {
    JoinLines(TidyLines(lines, false)[..index])
  }

  lemma CopyStep(lines: seq<string>, index: nat)
    requires index < |lines|
    ensures Copied(lines, index + 1) ==
            (if index > 0 then Copied(lines, index) + "\n" else Copied(lines, index)) +
            (if IsFence(lines[index]) || FenceBefore(lines, index) then lines[index] else Tidy(lines[index]))
  {
    var tidied := TidyLines(lines, false);
    TidyAt(lines, index);
    JoinSnoc(tidied[..index], tidied[index]);
    assert tidied[..index + 1] == tidied[..index] + [tidied[index]];
  }

  method CollapseOutsideCodeFences(input: string) returns (out: string)
    ensures out == Collapse(input)
  {
    out := "";
    var inFence := false;
    var lines := SplitLines(input);
    for index := 0 to |lines|
      invariant inFence == FenceBefore(lines, index)
      invariant out == Copied(lines, index)
    {
      var line := lines[index];
      CopyStep(lines, index);
      if index > 0 {
        out := out + "\n";
      }
      if IsFence(line) {
        inFence := !inFence;
        out := out + line;
        continue;
      }
      if inFence {
        out := out + line;
        continue;
      }
      var collapsed := SqueezeLine(line);
      out := out + TrimEnd(collapsed);
    }
    assert TidyLines(lines, false)[..|lines|] == TidyLines(lines, false);
    while HasTriple(out)
      invariant CapNewlines(out, 0) == Collapse(input)
      decreases |out|
    {
      ReplaceKeepsCap(out, 0);
      out := ReplaceTriples(out);
    }
    NoTripleIsCapped(out, 0);
  }

  lemma SqueezeStep(done: string, line: string, i: nat, afterSpace: bool)
    requires i < |line|
    ensures done + Squeeze(line[i..], afterSpace) ==
            (if IsBlank(line[i]) then (if afterSpace then done else done + [' ']) else done + [line[i]]) +
            Squeeze(line[i + 1..], IsBlank(line[i]))
  {
    assert line[i..][1..] == line[i + 1..];
  }

  method SqueezeLine(line: string) returns (collapsed: string)
    ensures collapsed == Squeeze(line, false)
  {
    var lastWasSpace := false;
    collapsed := "";
    assert line[0..] == line;
    for i := 0 to |line|
      invariant collapsed + Squeeze(line[i..], lastWasSpace) == Squeeze(line, false)
    {
      var ch := line[i];
      SqueezeStep(collapsed, line, i, lastWasSpace);
      if IsBlank(ch) {
        if !lastWasSpace {
          collapsed := collapsed + [' '];
        }
        lastWasSpace := true;
      } else {
        collapsed := collapsed + [ch];
        lastWasSpace := false;
      }
    }
  }
}
