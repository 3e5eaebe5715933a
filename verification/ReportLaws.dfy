/** What the stages and the report of a run come to, told from the lists before and after. */
module ReportLaws {
  import opened Decimal
  import opened Wrappers
  import opened Messages
  import opened Compressor
  import opened CompressorLaws

  // ---------------------------------------------------------------------------------------
  // Stages
  // ---------------------------------------------------------------------------------------

  /** The marker in a trimmed text spells the number of characters that went, in decimal. */
  lemma ElisionSpellsNumber(removed: nat)
    ensures exists digits :: AllDigits(digits) && Value(digits) == removed &&
              ElisionMarker(removed) ==
              "\n[... " + digits + " characters of earlier tool output omitted to save context ...]\n"
  {
    ValueOfDec(removed);
    assert AllDigits(Dec(removed)) && Value(Dec(removed)) == removed;
  }

  /** With the settings of the pipeline the last six messages, everything but tool results, and results of less
      than a thousand characters stay; any other result keeps its first and its last 300 characters. */
  lemma TrimmingByDefault(messages: seq<Message>, index: nat)
    requires index < |messages|
    ensures var before := messages[index];
            var after := Trimmed(messages, STALE_TOOL_RESULT_AGE, TOOL_RESULT_KEEP_EDGE)[index];
            var text, trimmed := before.Text(), after.Text();
            if index + 6 < |messages| && before.role.Tool? && |text| >= 1000
            then 600 <= |trimmed| < |text| && trimmed[..300] == text[..300] &&
                 trimmed[|trimmed| - 300..] == text[|text| - 300..]
            else after == before
  {
    var text := messages[index].Text();
    TrimmedPoint(messages, |messages|, index, STALE_TOOL_RESULT_AGE, TOOL_RESULT_KEEP_EDGE);
    if IsStaleResult(messages, index, STALE_TOOL_RESULT_AGE, TOOL_RESULT_KEEP_EDGE) {
      ElidedIsShorter(text, TOOL_RESULT_KEEP_EDGE);
    }
  }

  /** Past the threshold, or over the budget, at most `keepRecent` messages that are no instructions are left; up
      to there nothing changes. */
  lemma TruncationBounds(messages: seq<Message>, threshold: nat, keepRecent: nat, tokenBudget: Option<nat>, tokens: nat)
    ensures var out := Truncated(messages, threshold, keepRecent, tokenBudget, tokens);
            if |messages| > threshold || (tokenBudget.Some? && tokens > tokenBudget.value)
            then |Conversation(out)| <= keepRecent || |Conversation(messages)| <= keepRecent
            else out == messages
    ensures |Conversation(messages)| <= keepRecent ==>
              Truncated(messages, threshold, keepRecent, tokenBudget, tokens) == messages
  {
    SplitSorts(messages);
    if TruncationFires(messages, threshold, keepRecent, tokenBudget, tokens) {
      TruncationKeeps(messages, threshold, keepRecent, tokenBudget, tokens);
    } else {
      SplitCounts(messages);
    }
  }

  lemma {:induction false} SplitCounts(messages: seq<Message>)
    ensures |Instructions(messages)| + |Conversation(messages)| == |messages|
  {
    if messages != [] {
      SplitCounts(messages[1..]);
    }
  }

  /** The messages of users, assistants and tools. */
  function Turns(messages: seq<Message>): seq<Message> {
    if messages == [] then []
    else
      var first := messages[0];
      (if first.role == User || first.role == Assistant || first.role == Tool then [first] else []) + Turns(messages[1..])
  }

  lemma {:induction false} ConversationIsTurns(messages: seq<Message>)
    ensures Conversation(messages) == Turns(messages)
    ensures forall m :: m in messages && (m.role == System || m.role == Developer) ==> m in Instructions(messages)
  {
    if messages != [] {
      ConversationIsTurns(messages[1..]);
      assert forall m :: m in messages <==> m == messages[0] || m in messages[1..];
    }
  }

  /** Truncation never drops a system or developer message, and what users, assistants and tools said it leaves whole
      or cuts to the last `keepRecent`. */
  lemma TruncationByRole(messages: seq<Message>, threshold: nat, keepRecent: nat, tokenBudget: Option<nat>, tokens: nat,
                         m: Message)
    ensures var out, turns := Truncated(messages, threshold, keepRecent, tokenBudget, tokens), Turns(messages);
            && (m in messages && (m.role == System || m.role == Developer) ==> m in out)
            && (Turns(out) == turns || (keepRecent < |turns| && Turns(out) == turns[|turns| - keepRecent..]))
  {
    var out := Truncated(messages, threshold, keepRecent, tokenBudget, tokens);
    ConversationIsTurns(messages);
    ConversationIsTurns(out);
    if TruncationFires(messages, threshold, keepRecent, tokenBudget, tokens) {
      TruncationKeeps(messages, threshold, keepRecent, tokenBudget, tokens);
    }
  }

  // ---------------------------------------------------------------------------------------
  // Counts
  // ---------------------------------------------------------------------------------------

  /** In how many of the first places two lists differ. */
  function Differences(a: seq<Message>, b: seq<Message>, upTo: nat): nat
    requires upTo <= |a| && upTo <= |b|
  {
    if upTo == 0 then 0 else Differences(a, b, upTo - 1) + if a[upTo - 1] != b[upTo - 1] then 1 else 0
  }

  lemma MarkerDiffers(messages: seq<Message>, index: nat)
    requires index < |messages| <= USIZE_LIMIT
    ensures ReferencedAt(messages, index) != messages[index] <==> IsRepeatedBlock(messages, index)
  {
    if IsRepeatedBlock(messages, index) {
      MarkerIsSmall(FirstBlock(messages, messages[index].Text()) + 1);
    }
  }

  lemma {:induction false} BlocksAreDifferences(messages: seq<Message>, upTo: nat)
    requires upTo <= |messages| <= USIZE_LIMIT
    ensures Differences(messages, Referenced(messages), upTo) == RepeatedBlocks(messages, upTo)
  {
    if upTo > 0 {
      BlocksAreDifferences(messages, upTo - 1);
      ReferencedPoint(messages, |messages|, upTo - 1);
      MarkerDiffers(messages, upTo - 1);
    }
  }

  lemma {:induction false} StaleAreDifferences(messages: seq<Message>, upTo: nat, staleAge: nat, keepEdge: nat)
    requires upTo <= |messages|
    ensures Differences(messages, Trimmed(messages, staleAge, keepEdge), upTo) ==
            StaleResults(messages, upTo, staleAge, keepEdge)
  {
    if upTo > 0 {
      StaleAreDifferences(messages, upTo - 1, staleAge, keepEdge);
      TrimmedPoint(messages, |messages|, upTo - 1, staleAge, keepEdge);
      if IsStaleResult(messages, upTo - 1, staleAge, keepEdge) {
        ElidedIsShorter(messages[upTo - 1].Text(), keepEdge);
      }
    }
  }

  // ---------------------------------------------------------------------------------------
  // The report
  // ---------------------------------------------------------------------------------------

  function AfterReferencing(messages: seq<Message>, config: CompressorConfig): seq<Message> {
    var deduped := Deduped(messages, config);
    if config.referenceDuplicateBlocks then Referenced(deduped) else deduped
  }

  function AfterTrimming(messages: seq<Message>, config: CompressorConfig): seq<Message> {
    var referenced := AfterReferencing(messages, config);
    if config.trimStaleToolResults then Trimmed(referenced, STALE_TOOL_RESULT_AGE, TOOL_RESULT_KEEP_EDGE) else referenced
  }

  lemma {:induction false} NoDifferences(messages: seq<Message>, upTo: nat)
    requires upTo <= |messages|
    ensures Differences(messages, messages, upTo) == 0
  {
    if upTo > 0 {
      NoDifferences(messages, upTo - 1);
    }
  }

  lemma StageLengths(messages: seq<Message>, config: CompressorConfig)
    ensures |AfterReferencing(messages, config)| == |Deduped(messages, config)| == |AfterTrimming(messages, config)|
  {
  }

  /** The report holds the estimates of the two requests, and counts what each stage changed: messages that became
      pointers, messages that were trimmed, and bytes that the whitespace stage took. */
  lemma ReportCounts(messages: seq<Message>, tools: seq<string>, config: CompressorConfig)
    requires |messages| <= USIZE_LIMIT
    ensures |AfterReferencing(messages, config)| == |Deduped(messages, config)| == |AfterTrimming(messages, config)|
    ensures var report, n := Report(messages, tools, config), |Deduped(messages, config)|;
            && report.tokensBefore == EstimatedTokens(messages, tools)
            && report.tokensAfter == EstimatedTokens(Compressed(messages, tools, config), tools)
            && report.duplicateBlocksReferenced ==
               Differences(Deduped(messages, config), AfterReferencing(messages, config), n)
            && report.staleToolResultsTrimmed ==
               Differences(AfterReferencing(messages, config), AfterTrimming(messages, config), n)
            && report.whitespaceCharsRemoved ==
               Utf8Total(AfterTrimming(messages, config)) - Utf8Total(Rewritten(messages, config))
  {
    var deduped, referenced := Deduped(messages, config), AfterReferencing(messages, config);
    StageLengths(messages, config);
    BlocksAreDifferences(deduped, |deduped|);
    StaleAreDifferences(referenced, |deduped|, STALE_TOOL_RESULT_AGE, TOOL_RESULT_KEEP_EDGE);
    NoDifferences(deduped, |deduped|);
    NoDifferences(referenced, |deduped|);
  }

  // ---------------------------------------------------------------------------------------
  // Estimates
  // ---------------------------------------------------------------------------------------

  function ToolTokens(tools: seq<string>): nat {
    if tools == [] then 0 else ToolTokens(tools[..|tools| - 1]) + |tools[|tools| - 1]| / 4
  }

  lemma {:induction false} QuartersSnoc(tools: seq<string>, tool: string)
    ensures QuarterLengths(tools + [tool]) == QuarterLengths(tools) + |tool| / 4
  {
    if tools == [] {
      assert tools + [tool] == [tool] && [tool][1..] == [];
    } else {
      QuartersSnoc(tools[1..], tool);
      assert (tools + [tool])[1..] == tools[1..] + [tool];
    }
  }

  lemma {:induction false} QuartersOfTools(tools: seq<string>)
    ensures QuarterLengths(tools) == ToolTokens(tools)
  {
    if tools != [] {
      var n := |tools| - 1;
      QuartersOfTools(tools[..n]);
      QuartersSnoc(tools[..n], tools[n]);
      assert tools == tools[..n] + [tools[n]];
    }
  }

  /** A quarter of the characters of all texts, joined by a newline each, four for each message, and a quarter of the
      characters of each tool. */
  lemma EstimateIsExact(messages: seq<Message>, tools: seq<string>)
    ensures EstimatedTokens(messages, tools) ==
            (if messages == [] then 0 else (Weight(messages) - 1) / 4) + 4 * |messages| + ToolTokens(tools)
  {
    AllTextLength(messages);
    QuartersOfTools(tools);
  }

  /** The code points that a character of `width` bytes can hold in UTF-8: seven bits in one byte, and otherwise what
      the first byte leaves and six bits in each that follows. */
  function Utf8Capacity(width: nat): nat {
    if width <= 1 then 0x80 else if width == 2 then 0x20 * 0x40 else if width == 3 then 0x10 * 0x40 * 0x40
    else 0x8 * 0x40 * 0x40 * 0x40
  }

  /** A character takes the fewest bytes that can hold it. */
  lemma Utf8WidthIsLeast(c: char)
    ensures var width := Utf8Width(c);
            1 <= width <= 4 && c as int < Utf8Capacity(width) && (width > 1 ==> c as int >= Utf8Capacity(width - 1))
  {
  }
}
