/** What the whitespace pass leaves alone: a text in which there is nothing to collapse but single tabs.
    Every other text loses bytes, so the stage of the pipeline takes the collapsed form of it. */
module SlackLaws {
  import opened Compressor
  import opened Messages
  import opened Whitespace
  import opened WhitespaceLaws
  import opened Wrappers

  /** No two blanks in a row, and no whitespace at the end. */
  predicate Tight(line: string) { Spread(line) && Ended(line) }

  predicate Spread(line: string) { forall i :: 0 < i < |line| ==> !(IsBlank(line[i - 1]) && IsBlank(line[i])) }

  predicate Ended(line: string) { line != "" ==> !IsSpace(line[|line| - 1]) }

  /** No three newlines meet, and every line outside a fence is tight. */
  predicate Tidied(s: string) {
    && !HasTriple(s)
    && var lines := SplitLines(s);
       forall i :: 0 <= i < |lines| && !FenceBefore(lines, i) && !IsFence(lines[i]) ==> Tight(lines[i])
  }

  /** `b` is `a`, but for spaces in the place of some tabs. */
  predicate Untabbed(a: string, b: string) {
    |a| == |b| && forall i :: 0 <= i < |a| ==> b[i] == a[i] || (a[i] == '\t' && b[i] == ' ')
  }

  // ---------------------------------------------------------------------------------------
  // One line
  // ---------------------------------------------------------------------------------------

  lemma SpreadCons(line: string)
    requires line != ""
    ensures Spread(line) <==> Spread(line[1..]) && (|line| > 1 ==> !(IsBlank(line[0]) && IsBlank(line[1])))
  {
    var rest := line[1..];
    if Spread(rest) && (|line| > 1 ==> !(IsBlank(line[0]) && IsBlank(line[1]))) {
      forall i | 0 < i < |line|
        ensures !(IsBlank(line[i - 1]) && IsBlank(line[i]))
      {
        assert i > 1 ==> rest[i - 1] == line[i] && rest[i - 2] == line[i - 1];
      }
    }
    if Spread(line) {
      forall i | 0 < i < |rest|
        ensures !(IsBlank(rest[i - 1]) && IsBlank(rest[i]))
      {
        assert rest[i] == line[i + 1] && rest[i - 1] == line[i];
      }
    }
  }

  lemma {:induction false} SqueezeUntabs(line: string, afterSpace: bool)
    ensures |Squeeze(line, afterSpace)| == |line| <==> Spread(line) && !(afterSpace && line != "" && IsBlank(line[0]))
    ensures |Squeeze(line, afterSpace)| == |line| ==> Untabbed(line, Squeeze(line, afterSpace))
  {
    if line != "" {
      SqueezeUntabs(line[1..], IsBlank(line[0]));
      SqueezeShorter(line[1..], IsBlank(line[0]));
      SpreadCons(line);
    }
  }

  lemma {:induction false} TrimEndLength(s: string)
    ensures |TrimEnd(s)| <= |s|
    ensures |TrimEnd(s)| == |s| <==> Ended(s)
    ensures Ended(s) ==> TrimEnd(s) == s
  {
    if s != "" && IsSpace(s[|s| - 1]) {
      TrimEndLength(s[..|s| - 1]);
    }
  }

  /** Tidying a line shortens it unless it is tight, and then only replaces tabs. */
  lemma TidyLength(line: string)
    ensures |Tidy(line)| <= |line|
    ensures |Tidy(line)| == |line| <==> Tight(line)
    ensures Tight(line) ==> Untabbed(line, Tidy(line))
  {
    SqueezeUntabs(line, false);
    SqueezeShorter(line, false);
    TrimEndLength(Squeeze(line, false));
  }

  // ---------------------------------------------------------------------------------------
  // All lines
  // ---------------------------------------------------------------------------------------

  /** Every line outside a fence is tight. */
  predicate AllTight(lines: seq<string>, inFence: bool) {
    lines == [] ||
    ((IsFence(lines[0]) || inFence || Tight(lines[0])) && AllTight(lines[1..], inFence != IsFence(lines[0])))
  }

  lemma {:induction false} AllTightFrom(lines: seq<string>, index: nat)
    requires index <= |lines|
    ensures AllTight(lines[index..], FenceBefore(lines, index)) <==>
            forall i :: index <= i < |lines| && !FenceBefore(lines, i) && !IsFence(lines[i]) ==> Tight(lines[i])
    decreases |lines| - index
  {
    if index < |lines| {
      assert lines[index..][1..] == lines[index + 1..];
      AllTightFrom(lines, index + 1);
    }
  }

  predicate UntabbedLines(a: seq<string>, b: seq<string>) {
    |a| == |b| && forall i :: 0 <= i < |a| ==> Untabbed(a[i], b[i])
  }

  lemma {:induction false} TidyLinesLength(lines: seq<string>, inFence: bool)
    ensures TotalLength(TidyLines(lines, inFence)) <= TotalLength(lines)
    ensures TotalLength(TidyLines(lines, inFence)) == TotalLength(lines) <==> AllTight(lines, inFence)
    ensures AllTight(lines, inFence) ==> UntabbedLines(lines, TidyLines(lines, inFence))
  {
    if lines != [] {
      TidyLength(lines[0]);
      TidyLinesLength(lines[1..], inFence != IsFence(lines[0]));
      if AllTight(lines, inFence) {
        UntabbedCons(lines, TidyLines(lines, inFence));
      }
    }
  }

  lemma UntabbedCons(a: seq<string>, b: seq<string>)
    requires a != [] && b != [] && Untabbed(a[0], b[0]) && UntabbedLines(a[1..], b[1..])
    ensures UntabbedLines(a, b)
  {
    forall i | 0 <= i < |a|
      ensures Untabbed(a[i], b[i])
    {
      if i > 0 {
        assert a[i] == a[1..][i - 1] && b[i] == b[1..][i - 1];
      }
    }
  }

  lemma UntabbedConcat(a: string, b: string, a': string, b': string)
    requires Untabbed(a, b) && Untabbed(a', b')
    ensures Untabbed(a + "\n" + a', b + "\n" + b')
  {
  }

  lemma {:induction false} UntabbedJoin(a: seq<string>, b: seq<string>)
    requires UntabbedLines(a, b)
    ensures Untabbed(JoinLines(a), JoinLines(b))
  {
    if |a| > 1 {
      assert forall i :: 0 <= i < |a| - 1 ==> a[1..][i] == a[i + 1] && b[1..][i] == b[i + 1];
      UntabbedJoin(a[1..], b[1..]);
      UntabbedConcat(a[0], b[0], JoinLines(a[1..]), JoinLines(b[1..]));
    }
  }

  lemma {:induction false} UntabbedTriple(a: string, b: string)
    requires Untabbed(a, b)
    ensures HasTriple(a) == HasTriple(b)
  {
    if |a| >= 3 {
      assert forall i :: 0 <= i < |a| - 1 ==> a[1..][i] == a[i + 1] && b[1..][i] == b[i + 1];
      UntabbedTriple(a[1..], b[1..]);
    }
  }

  lemma {:induction false} CapLength(s: string, run: nat)
    ensures |CapNewlines(s, run)| == |s| ==> CapNewlines(s, run) == s
  {
    if s != "" {
      CapLength(s[1..], if s[0] != '\n' then 0 else if run >= 2 then 2 else run + 1);
      CapShorter(s[1..], if s[0] != '\n' then 0 else if run >= 2 then 2 else run + 1);
    }
  }

  // ---------------------------------------------------------------------------------------
  // The text
  // ---------------------------------------------------------------------------------------

  lemma TidiedIsTight(s: string)
    ensures Tidied(s) <==> !HasTriple(s) && AllTight(SplitLines(s), false)
  {
    var lines := SplitLines(s);
    AllTightFrom(lines, 0);
    assert lines[0..] == lines;
  }

  /** The pass shortens a text unless it is tidied, and then only replaces tabs. */
  lemma CollapseLength(s: string)
    ensures |Collapse(s)| == |s| <==> Tidied(s)
    ensures Tidied(s) ==> Untabbed(s, Collapse(s))
  {
    var lines, joined := SplitLines(s), JoinLines(TidyLines(SplitLines(s), false));
    TidiedIsTight(s);
    JoinSplit(s);
    JoinLength(lines);
    JoinLength(TidyLines(lines, false));
    TidyLinesLength(lines, false);
    CapShorter(joined, 0);
    CapLength(joined, 0);
    CappedHasNoTriple(joined, 0);
    if AllTight(lines, false) {
      UntabbedJoin(lines, TidyLines(lines, false));
      UntabbedTriple(s, joined);
      if !HasTriple(joined) {
        NoTripleIsCapped(joined, 0);
      }
    }
  }

  /** What the pass returns is tidied. */
  lemma CollapseTidies(s: string)
    ensures Tidied(Collapse(s))
  {
    CollapseLeavesNoSlack(s);
    var lines := SplitLines(Collapse(s));
    assert forall i :: 0 <= i < |lines| && NoSlack(lines[i]) ==> Tight(lines[i]);
  }

  // ---------------------------------------------------------------------------------------
  // Bytes
  // ---------------------------------------------------------------------------------------

  /** The bytes beyond one for each character. */
  function Wide(s: string): nat { Utf8Len(s) - |s| }

  function WideLines(lines: seq<string>): nat { if lines == [] then 0 else Wide(lines[0]) + WideLines(lines[1..]) }

  lemma {:induction false} UntabbedBytes(a: string, b: string)
    requires Untabbed(a, b)
    ensures Utf8Len(a) == Utf8Len(b)
  {
    if a != "" {
      assert forall i :: 0 <= i < |a| - 1 ==> a[1..][i] == a[i + 1] && b[1..][i] == b[i + 1];
      UntabbedBytes(a[1..], b[1..]);
    }
  }

  lemma WideCons(c: char, s: string)
    ensures Wide([c] + s) == Utf8Width(c) - 1 + Wide(s)
  {
    assert ([c] + s)[1..] == s;
  }

  lemma {:induction false} SqueezeWide(line: string, afterSpace: bool)
    ensures Wide(Squeeze(line, afterSpace)) == Wide(line)
  {
    if line != "" {
      var rest := Squeeze(line[1..], IsBlank(line[0]));
      SqueezeWide(line[1..], IsBlank(line[0]));
      WideCons(line[0], line[1..]);
      WideCons(line[0], rest);
      WideCons(' ', rest);
      assert line == [line[0]] + line[1..] && [] + rest == rest;
    }
  }

  lemma {:induction false} CapWide(s: string, run: nat)
    ensures Wide(CapNewlines(s, run)) == Wide(s)
  {
    if s != "" {
      var next := if s[0] != '\n' then 0 else if run >= 2 then 2 else run + 1;
      CapWide(s[1..], next);
      WideCons(s[0], s[1..]);
      WideCons(s[0], CapNewlines(s[1..], next));
      assert s == [s[0]] + s[1..];
    }
  }

  lemma PrefixWide(prefix: string, s: string)
    requires prefix <= s
    ensures Wide(prefix) <= Wide(s)
  {
    assert s == prefix + s[|prefix|..];
    Utf8LenConcat(prefix, s[|prefix|..]);
  }

  lemma TidyWide(line: string)
    ensures Wide(Tidy(line)) <= Wide(line)
  {
    SqueezeWide(line, false);
    TrimEndIsPrefix(Squeeze(line, false));
    PrefixWide(Tidy(line), Squeeze(line, false));
  }

  lemma {:induction false} TidyLinesWide(lines: seq<string>, inFence: bool)
    ensures WideLines(TidyLines(lines, inFence)) <= WideLines(lines)
  {
    if lines != [] {
      TidyWide(lines[0]);
      TidyLinesWide(lines[1..], inFence != IsFence(lines[0]));
    }
  }

  lemma {:induction false} JoinWide(lines: seq<string>)
    ensures Wide(JoinLines(lines)) == WideLines(lines)
  {
    if |lines| > 1 {
      var rest := JoinLines(lines[1..]);
      JoinWide(lines[1..]);
      Utf8LenConcat(lines[0] + "\n", rest);
      Utf8LenConcat(lines[0], "\n");
      assert Utf8Len("\n") == 1;
    } else if |lines| == 1 {
      assert WideLines(lines[1..]) == 0;
    }
  }

  /** So a text loses bytes in the pass exactly when it is not tidied. */
  lemma CollapseSavesBytes(s: string)
    ensures Utf8Len(Collapse(s)) < Utf8Len(s) <==> !Tidied(s)
  {
    var lines := SplitLines(s);
    CollapseLength(s);
    CollapseNeverGrows(s);
    if Tidied(s) {
      UntabbedBytes(s, Collapse(s));
    } else {
      JoinSplit(s);
      JoinWide(lines);
      JoinWide(TidyLines(lines, false));
      TidyLinesWide(lines, false);
      CapWide(JoinLines(TidyLines(lines, false)), 0);
    }
  }

  // ---------------------------------------------------------------------------------------
  // The stage and the pipeline
  // ---------------------------------------------------------------------------------------

  /** After the whitespace stage every message is tidied: it has its own text when that was tidied before,
      and the collapsed one otherwise. */
  lemma StageTidies(messages: seq<Message>, index: nat)
    requires index < |messages|
    ensures var before, after := messages[index], CollapsedAll(messages)[index];
            && after.role == before.role && (after.content.None? <==> before.content.None?)
            && after.Text() == (if Tidied(before.Text()) then before.Text() else Collapse(before.Text()))
            && Tidied(after.Text())
  {
    CollapsedPoint(messages, |messages|, index);
    CollapseSavesBytes(messages[index].Text());
    CollapseTidies(messages[index].Text());
    EmptyIsTidied();
  }

  lemma EmptyIsTidied()
    ensures Tidied("")
  {
    assert SplitLines("") == [""];
  }

  /** Some of the first messages is not tidied. */
  predicate SlackBefore(messages: seq<Message>, upTo: nat)
    requires upTo <= |messages|
  {
    exists i :: 0 <= i < upTo && !Tidied(messages[i].Text())
  }

  lemma SlackSnoc(messages: seq<Message>, n: nat)
    requires n < |messages|
    ensures SlackBefore(messages, n + 1) <==> SlackBefore(messages, n) || !Tidied(messages[n].Text())
  {
  }

  lemma NoSlackBefore(messages: seq<Message>)
    ensures !SlackBefore(messages, 0)
  {
  }

  lemma MessageSavesBytes(message: Message)
    ensures Utf8Len(CollapsedMessage(message).Text()) < Utf8Len(message.Text()) <==> !Tidied(message.Text())
    ensures Utf8Len(CollapsedMessage(message).Text()) <= Utf8Len(message.Text())
  {
    CollapseSavesBytes(message.Text());
    EmptyIsTidied();
  }

  lemma StepSavesBytes(messages: seq<Message>, index: nat)
    requires index < |messages|
    ensures var before, after := Utf8Total(CollapsedUpTo(messages, index)), Utf8Total(CollapsedUpTo(messages, index + 1));
            after <= before && (after < before <==> !Tidied(messages[index].Text()))
  {
    CollapsedStep(messages, index);
    MessageSavesBytes(messages[index]);
  }

  /** The stage saves bytes exactly when some message is not tidied. */
  lemma {:induction false} StageSavesBytes(messages: seq<Message>, upTo: nat)
    requires upTo <= |messages|
    ensures Utf8Total(CollapsedUpTo(messages, upTo)) <= Utf8Total(messages)
    ensures Utf8Total(CollapsedUpTo(messages, upTo)) < Utf8Total(messages) <==> SlackBefore(messages, upTo)
  {
    if upTo == 0 {
      NoSlackBefore(messages);
    } else {
      StageSavesBytes(messages, upTo - 1);
      StepSavesBytes(messages, upTo - 1);
      SlackSnoc(messages, upTo - 1);
    }
  }

  /** With the whitespace stage on, every message the pipeline returns is tidied, all but the truncation
      marker that it adds afterwards. */
  lemma PipelineTidies(messages: seq<Message>, tools: seq<string>, config: CompressorConfig, index: nat)
    requires config.collapseWhitespace && index < |Compressed(messages, tools, config)|
    ensures var out := Compressed(messages, tools, config)[index];
            out == Message(System, Some(TRUNCATION_MARKER)) || Tidied(out.Text())
  {
    var list, out := Rewritten(messages, config), Compressed(messages, tools, config)[index];
    if out != Message(System, Some(TRUNCATION_MARKER)) {
      assert out in Compressed(messages, tools, config);
      if config.truncateHistory {
        TruncatedComesFrom(list, config.truncateThreshold, config.keepRecent, config.tokenBudget,
                           EstimatedTokens(messages, tools), out);
      }
      assert out in list;
      var k :| 0 <= k < |list| && list[k] == out;
      RewrittenIsTidied(messages, config, k);
    }
  }

  lemma RewrittenIsTidied(messages: seq<Message>, config: CompressorConfig, k: nat)
    requires config.collapseWhitespace && k < |Rewritten(messages, config)|
    ensures Tidied(Rewritten(messages, config)[k].Text())
  {
    var deduped := if config.dedupeSystem then DedupedSystem(messages, []) else messages;
    var referenced := if config.referenceDuplicateBlocks then Referenced(deduped) else deduped;
    var trimmed := if config.trimStaleToolResults
                   then Trimmed(referenced, STALE_TOOL_RESULT_AGE, TOOL_RESULT_KEEP_EDGE) else referenced;
    assert Rewritten(messages, config) == CollapsedAll(trimmed);
    StageTidies(trimmed, k);
  }

  lemma {:induction false} PartsComeFrom(messages: seq<Message>, m: Message)
    requires m in Instructions(messages) || m in Conversation(messages)
    ensures m in messages
  {
    if m != messages[0] {
      PartsComeFrom(messages[1..], m);
    }
  }

  lemma TruncatedComesFrom(messages: seq<Message>, threshold: nat, keepRecent: nat, tokenBudget: Option<nat>,
                           tokens: nat, m: Message)
    requires m in Truncated(messages, threshold, keepRecent, tokenBudget, tokens)
    ensures m in messages || m == Message(System, Some(TRUNCATION_MARKER))
  {
    if m in Instructions(messages) || m in Conversation(messages) {
      PartsComeFrom(messages, m);
    }
  }
}
