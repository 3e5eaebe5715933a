/** The message-level stages of the prompt compressor, and the pipeline that runs them. */
module Compressor {
  import opened Decimal
  import opened Wrappers
  import opened Messages
  import Whitespace

  const LARGE_BLOCK_CHARS := 400
  const STALE_TOOL_RESULT_AGE := 6
  const TOOL_RESULT_KEEP_EDGE := 300
  const TRUNCATION_MARKER := "[Earlier conversation history was omitted to fit the context window.]"

  datatype CompressionResult = CompressionResult(
    tokensBefore: nat,
    tokensAfter: nat,
    duplicateSystemMessagesRemoved: nat,
    messagesTruncated: nat,
    whitespaceCharsRemoved: nat,
    duplicateBlocksReferenced: nat,
    staleToolResultsTrimmed: nat)

  datatype CompressorConfig = CompressorConfig(
    dedupeSystem: bool,
    collapseWhitespace: bool,
    truncateHistory: bool,
    referenceDuplicateBlocks: bool,
    trimStaleToolResults: bool,
    truncateThreshold: nat,
    keepRecent: nat,
    tokenBudget: Option<nat>)

  const TRUNCATE_THRESHOLD := 40
  const KEEP_RECENT := 20

  /** The settings requests are compressed with, unless compression is off. */
  const DEFAULT_CONFIG := CompressorConfig(true, true, true, true, true, TRUNCATE_THRESHOLD, KEEP_RECENT, Some(32_000))

  // ---------------------------------------------------------------------------------------
  // Duplicate system messages
  // ---------------------------------------------------------------------------------------

  predicate IsRepeat(message: Message, seen: seq<string>) {
    message.IsInstruction() && message.Text() != "" && message.Text() in seen
  }

  function SeenAfter(message: Message, seen: seq<string>): seq<string> {
    if message.IsInstruction() && message.Text() != "" && message.Text() !in seen
    then seen + [message.Text()] else seen
  }

  function DedupedSystem(messages: seq<Message>, seen: seq<string>): (r: seq<Message>)
    ensures |r| <= |messages|
  {
    if messages == [] then []
    else (if IsRepeat(messages[0], seen) then [] else [messages[0]]) +
         DedupedSystem(messages[1..], SeenAfter(messages[0], seen))
  }

  lemma DedupedStep(messages: seq<Message>, index: nat, seen: seq<string>, kept: seq<Message>)
    requires index < |messages|
    ensures kept + DedupedSystem(messages[index..], seen) ==
            (if IsRepeat(messages[index], seen) then kept else kept + [messages[index]]) +
            DedupedSystem(messages[index + 1..], SeenAfter(messages[index], seen))
  {
    assert messages[index..][1..] == messages[index + 1..];
  }

  // ---------------------------------------------------------------------------------------
  // Duplicate blocks
  // ---------------------------------------------------------------------------------------

  const MARKER_HEAD := "[Identical to the content" + " already provided in" + " message "
  const MARKER_TAIL := " of this conversation; omitted here to save context.]"

  function BlockMarker(number: nat): string { MARKER_HEAD + Dec(number) + MARKER_TAIL }

  predicate IsBlock(message: Message) {
    !message.IsInstruction() && message.content.Some? && Utf8Len(message.Text()) >= LARGE_BLOCK_CHARS
  }

  /** The position of the first large block with this text; the length when there is none. */
  function FirstBlock(messages: seq<Message>, text: string): (k: nat)
    ensures k <= |messages|
  {
    if messages == [] then 0
    else if IsBlock(messages[0]) && messages[0].Text() == text then 0
    else 1 + FirstBlock(messages[1..], text)
  }

  lemma {:induction false} FirstBlockIsFirst(messages: seq<Message>, text: string)
    ensures var k := FirstBlock(messages, text);
            && (k < |messages| ==> IsBlock(messages[k]) && messages[k].Text() == text)
            && (forall j :: 0 <= j < k ==> !(IsBlock(messages[j]) && messages[j].Text() == text))
  {
    if messages != [] {
      FirstBlockIsFirst(messages[1..], text);
    }
  }

  predicate IsRepeatedBlock(messages: seq<Message>, index: nat)
    requires index < |messages|
  {
    IsBlock(messages[index]) && FirstBlock(messages, messages[index].Text()) < index
  }

  function ReferencedAt(messages: seq<Message>, index: nat): Message
    requires index < |messages|
  {
    if IsRepeatedBlock(messages, index)
    then messages[index].(content := Some(BlockMarker(FirstBlock(messages, messages[index].Text()) + 1)))
    else messages[index]
  }

  /** The list once the messages before `upTo` have been looked at: every large block among them
      that repeats an earlier one has become a pointer to the first. */
  function ReferencedUpTo(messages: seq<Message>, upTo: nat): (r: seq<Message>)
    requires upTo <= |messages|
    ensures |r| == |messages|
  {
    if upTo == 0 then messages
    else ReferencedUpTo(messages, upTo - 1)[upTo - 1 := ReferencedAt(messages, upTo - 1)]
  }

  function Referenced(messages: seq<Message>): seq<Message> { ReferencedUpTo(messages, |messages|) }

  lemma {:induction false} ReferencedPoint(messages: seq<Message>, upTo: nat, index: nat)
    requires upTo <= |messages| && index < |messages|
    ensures ReferencedUpTo(messages, upTo)[index] ==
            if index < upTo then ReferencedAt(messages, index) else messages[index]
  {
    if upTo > 0 {
      ReferencedPoint(messages, upTo - 1, index);
    }
  }

  function RepeatedBlocks(messages: seq<Message>, upTo: nat): nat
    requires upTo <= |messages|
  {
    if upTo == 0 then 0
    else RepeatedBlocks(messages, upTo - 1) + if IsRepeatedBlock(messages, upTo - 1) then 1 else 0
  }

  // ---------------------------------------------------------------------------------------
  // Stale tool results
  // ---------------------------------------------------------------------------------------

  predicate IsStaleResult(messages: seq<Message>, index: nat, staleAge: nat, keepEdge: nat)
    requires index < |messages|
  {
    index + staleAge < |messages| && messages[index].role.Tool? && messages[index].content.Some? &&
    |messages[index].Text()| >= keepEdge * 2 + LARGE_BLOCK_CHARS
  }

  function ElisionMarker(removed: nat): string {
    "\n[... " + Dec(removed) + " characters of earlier tool output omitted to save context ...]\n"
  }

  /** The head and the tail of a text, and between them how much was left out. */
  function Elided(text: string, keepEdge: nat): string
    requires keepEdge * 2 <= |text|
  {
    text[..keepEdge] + ElisionMarker(|text| - keepEdge * 2) + text[|text| - keepEdge..]
  }

  function TrimmedAt(messages: seq<Message>, index: nat, staleAge: nat, keepEdge: nat): Message
    requires index < |messages|
  {
    if IsStaleResult(messages, index, staleAge, keepEdge)
    then messages[index].(content := Some(Elided(messages[index].Text(), keepEdge)))
    else messages[index]
  }

  function TrimmedUpTo(messages: seq<Message>, upTo: nat, staleAge: nat, keepEdge: nat): (r: seq<Message>)
    requires upTo <= |messages|
    ensures |r| == |messages|
  {
    if upTo == 0 then messages
    else TrimmedUpTo(messages, upTo - 1, staleAge, keepEdge)
         [upTo - 1 := TrimmedAt(messages, upTo - 1, staleAge, keepEdge)]
  }

  /** Large tool results more than `staleAge` messages from the end keep head and tail only. */
  function Trimmed(messages: seq<Message>, staleAge: nat, keepEdge: nat): seq<Message> {
    TrimmedUpTo(messages, |messages|, staleAge, keepEdge)
  }

  lemma {:induction false} TrimmedPoint(messages: seq<Message>, upTo: nat, index: nat, staleAge: nat, keepEdge: nat)
    requires upTo <= |messages| && index < |messages|
    ensures TrimmedUpTo(messages, upTo, staleAge, keepEdge)[index] ==
            if index < upTo then TrimmedAt(messages, index, staleAge, keepEdge) else messages[index]
  {
    if upTo > 0 {
      TrimmedPoint(messages, upTo - 1, index, staleAge, keepEdge);
    }
  }

  function StaleResults(messages: seq<Message>, upTo: nat, staleAge: nat, keepEdge: nat): nat
    requires upTo <= |messages|
  {
    if upTo == 0 then 0
    else StaleResults(messages, upTo - 1, staleAge, keepEdge) +
         if IsStaleResult(messages, upTo - 1, staleAge, keepEdge) then 1 else 0
  }

  // ---------------------------------------------------------------------------------------
  // Whitespace
  // ---------------------------------------------------------------------------------------

  /** A message takes its collapsed text only when that has fewer bytes. */
  function CollapsedMessage(message: Message): Message {
    var collapsed := Whitespace.Collapse(message.Text());
    if message.content.Some? && message.Text() != "" && Utf8Len(collapsed) < Utf8Len(message.Text())
    then message.(content := Some(collapsed)) else message
  }

  function CollapsedUpTo(messages: seq<Message>, upTo: nat): (r: seq<Message>)
    requires upTo <= |messages|
    ensures |r| == |messages|
  {
    if upTo == 0 then messages
    else CollapsedUpTo(messages, upTo - 1)[upTo - 1 := CollapsedMessage(messages[upTo - 1])]
  }

  function CollapsedAll(messages: seq<Message>): seq<Message> { CollapsedUpTo(messages, |messages|) }

  lemma {:induction false} CollapsedPoint(messages: seq<Message>, upTo: nat, index: nat)
    requires upTo <= |messages| && index < |messages|
    ensures CollapsedUpTo(messages, upTo)[index] ==
            if index < upTo then CollapsedMessage(messages[index]) else messages[index]
  {
    if upTo > 0 {
      CollapsedPoint(messages, upTo - 1, index);
      UpdatedAt(CollapsedUpTo(messages, upTo - 1), upTo - 1, CollapsedMessage(messages[upTo - 1]),
                CollapsedUpTo(messages, upTo), index);
    }
  }

  lemma UpdatedAt(done: seq<Message>, i: nat, message: Message, updated: seq<Message>, index: nat)
    requires i < |done| && index < |done| && updated == done[i := message]
    ensures updated[index] == if index == i then message else done[index]
  {
  }

  lemma CollapsedStep(messages: seq<Message>, index: nat)
    requires index < |messages|
    ensures CollapsedUpTo(messages, index)[index] == messages[index]
    ensures Utf8Total(CollapsedUpTo(messages, index + 1)) ==
            Utf8Total(CollapsedUpTo(messages, index)) -
            Utf8Len(messages[index].Text()) + Utf8Len(CollapsedMessage(messages[index]).Text())
  {
    CollapsedPoint(messages, index, index);
    Utf8TotalUpdate(CollapsedUpTo(messages, index), index, CollapsedMessage(messages[index]));
  }

  lemma {:induction false} CollapsingSavesBytes(messages: seq<Message>, upTo: nat)
    requires upTo <= |messages|
    ensures Utf8Total(CollapsedUpTo(messages, upTo)) <= Utf8Total(messages)
  {
    if upTo > 0 {
      CollapsingSavesBytes(messages, upTo - 1);
      CollapsedStep(messages, upTo - 1);
    }
  }

  function Utf8Total(messages: seq<Message>): nat {
    if messages == [] then 0 else Utf8Len(messages[0].Text()) + Utf8Total(messages[1..])
  }

  // ---------------------------------------------------------------------------------------
  // History truncation
  // ---------------------------------------------------------------------------------------

  function Instructions(messages: seq<Message>): seq<Message> {
    if messages == [] then []
    else if messages[0].IsInstruction() then [messages[0]] + Instructions(messages[1..])
    else Instructions(messages[1..])
  }

  function Conversation(messages: seq<Message>): seq<Message> {
    if messages == [] then []
    else if messages[0].IsInstruction() then Conversation(messages[1..])
    else [messages[0]] + Conversation(messages[1..])
  }

  predicate TruncationFires(messages: seq<Message>, threshold: nat, keepRecent: nat,
                            tokenBudget: Option<nat>, estimatedTokens: nat)
  {
    && (|messages| > threshold || (tokenBudget.Some? && estimatedTokens > tokenBudget.value))
    && keepRecent < |messages|
    && keepRecent < |Conversation(messages)|
  }

  function Truncated(messages: seq<Message>, threshold: nat, keepRecent: nat,
                     tokenBudget: Option<nat>, estimatedTokens: nat): seq<Message>
  {
    if !TruncationFires(messages, threshold, keepRecent, tokenBudget, estimatedTokens) then messages
    else
      var conversation := Conversation(messages);
      Instructions(messages) + [Message(System, Some(TRUNCATION_MARKER))] +
      conversation[|conversation| - keepRecent..]
  }

  // ---------------------------------------------------------------------------------------
  // The pipeline
  // ---------------------------------------------------------------------------------------

  /** Every stage before truncation. */
  function Rewritten(messages: seq<Message>, config: CompressorConfig): seq<Message> {
    var deduped := if config.dedupeSystem then DedupedSystem(messages, []) else messages;
    var referenced := if config.referenceDuplicateBlocks then Referenced(deduped) else deduped;
    var trimmed := if config.trimStaleToolResults
                   then Trimmed(referenced, STALE_TOOL_RESULT_AGE, TOOL_RESULT_KEEP_EDGE) else referenced;
    if config.collapseWhitespace then CollapsedAll(trimmed) else trimmed
  }

  function Compressed(messages: seq<Message>, tools: seq<string>, config: CompressorConfig): seq<Message> {
    var rewritten := Rewritten(messages, config);
    if config.truncateHistory
    then Truncated(rewritten, config.truncateThreshold, config.keepRecent, config.tokenBudget,
                   EstimatedTokens(messages, tools))
    else rewritten
  }

  /** What a run of the pipeline reports. */
  function Report(messages: seq<Message>, tools: seq<string>, config: CompressorConfig): CompressionResult {
    var deduped := if config.dedupeSystem then DedupedSystem(messages, []) else messages;
    var referenced := if config.referenceDuplicateBlocks then Referenced(deduped) else deduped;
    var trimmed := if config.trimStaleToolResults
                   then Trimmed(referenced, STALE_TOOL_RESULT_AGE, TOOL_RESULT_KEEP_EDGE) else referenced;
    var rewritten := Rewritten(messages, config);
    CollapsingSavesBytes(trimmed, |trimmed|);
    CompressionResult(
      EstimatedTokens(messages, tools),
      EstimatedTokens(Compressed(messages, tools, config), tools),
      |messages| - |deduped|,
      if config.truncateHistory &&
         TruncationFires(rewritten, config.truncateThreshold, config.keepRecent, config.tokenBudget,
                         EstimatedTokens(messages, tools))
      then |Conversation(rewritten)| - config.keepRecent else 0,
      Utf8Total(trimmed) - Utf8Total(rewritten),
      if config.referenceDuplicateBlocks then RepeatedBlocks(deduped, |deduped|) else 0,
      if config.trimStaleToolResults
      then StaleResults(referenced, |referenced|, STALE_TOOL_RESULT_AGE, TOOL_RESULT_KEEP_EDGE) else 0)
  }

  class NormalizedRequest {
    var messages: seq<Message>
    const tools: seq<string>

    constructor (messages: seq<Message>, tools: seq<string>)
      ensures this.messages == messages && this.tools == tools
    {
      this.messages := messages;
      this.tools := tools;
    }

    function EstimatedInputTokens(): nat
      reads this
    {
      EstimatedTokens(messages, tools)
    }

    method DedupeSystemMessages() returns (removed: nat)
      modifies this
      ensures messages == DedupedSystem(old(messages), [])
      ensures removed == |old(messages)| - |messages|
    {
      ghost var input := messages;
      var seen: seq<string> := [];
      var kept: seq<Message> := [];
      removed := 0;
      assert input[0..] == input;
      for i := 0 to |messages|
        invariant messages == input
        invariant DedupedSystem(input, []) == kept + DedupedSystem(input[i..], seen)
        invariant removed + |kept| == i
      {
        var message := messages[i];
        DedupedStep(input, i, seen, kept);
        if !message.IsInstruction() || message.Text() == "" {
          kept := kept + [message];
        } else if message.Text() in seen {
          removed := removed + 1;
        } else {
          seen := seen + [message.Text()];
          kept := kept + [message];
        }
      }
      messages := kept;
    }

    method ReferenceDuplicateBlocks() returns (referenced: nat)
      modifies this
      ensures messages == Referenced(old(messages))
      ensures referenced == RepeatedBlocks(old(messages), |messages|)
    {
      ghost var input := messages;
      var seen: map<string, nat> := map[];
      referenced := 0;
      for index := 0 to |messages|
        invariant messages == ReferencedUpTo(input, index)
        invariant seen == Seen(input, index)
        invariant referenced == RepeatedBlocks(input, index)
      {
        var message := messages[index];
        ReferenceStep(input, index);
        if message.IsInstruction() || message.content.None? {
          continue;
        }
        var text := message.Text();
        if Utf8Len(text) < LARGE_BLOCK_CHARS {
          continue;
        }
        if text in seen {
          messages := messages[index := message.(content := Some(BlockMarker(seen[text] + 1)))];
          referenced := referenced + 1;
        } else {
          seen := seen[text := index];
        }
      }
    }

    method TrimStaleToolResults(staleAge: nat, keepEdge: nat) returns (trimmed: nat)
      modifies this
      ensures messages == Trimmed(old(messages), staleAge, keepEdge)
      ensures trimmed == StaleResults(old(messages), |messages|, staleAge, keepEdge)
    {
      ghost var input := messages;
      var total := |messages|;
      trimmed := 0;
      if total <= staleAge {
        NothingStale(input, 0, total, staleAge, keepEdge);
        return;
      }
      var cutoff := total - staleAge;
      for index := 0 to cutoff
        invariant messages == TrimmedUpTo(input, index, staleAge, keepEdge)
        invariant trimmed == StaleResults(input, index, staleAge, keepEdge)
      {
        var message := messages[index];
        TrimmedPoint(input, index, index, staleAge, keepEdge);
        if !message.role.Tool? || message.content.None? {
          continue;
        }
        var text := message.Text();
        if |text| < keepEdge * 2 + LARGE_BLOCK_CHARS {
          continue;
        }
        messages := messages[index := message.(content := Some(Elided(text, keepEdge)))];
        trimmed := trimmed + 1;
      }
      NothingStale(input, cutoff, total, staleAge, keepEdge);
    }

    method CollapseWhitespace() returns (removed: nat)
      modifies this
      ensures messages == CollapsedAll(old(messages))
      ensures removed == Utf8Total(old(messages)) - Utf8Total(messages)
    {
      ghost var input := messages;
      removed := 0;
      for index := 0 to |messages|
        invariant messages == CollapsedUpTo(input, index)
        invariant removed == Utf8Total(input) - Utf8Total(messages)
      {
        var message := messages[index];
        CollapsedStep(input, index);
        var original := message.Text();
        if message.content.None? || original == "" {
          continue;
        }
        var collapsed := Whitespace.CollapseOutsideCodeFences(original);
        if Utf8Len(collapsed) < Utf8Len(original) {
          removed := removed + (Utf8Len(original) - Utf8Len(collapsed));
          messages := messages[index := message.(content := Some(collapsed))];
        }
      }
    }

    method TruncateHistory(threshold: nat, keepRecent: nat, tokenBudget: Option<nat>, estimatedTokens: nat)
      returns (removed: nat)
      modifies this
      ensures messages == Truncated(old(messages), threshold, keepRecent, tokenBudget, estimatedTokens)
      ensures removed == if TruncationFires(old(messages), threshold, keepRecent, tokenBudget, estimatedTokens)
                         then |Conversation(old(messages))| - keepRecent else 0
    {
      var exceedsTurns := |messages| > threshold;
      var exceedsBudget := tokenBudget.Some? && estimatedTokens > tokenBudget.value;
      if (!exceedsTurns && !exceedsBudget) || keepRecent >= |messages| {
        return 0;
      }
      var system := Instructions(messages);
      var conversation := Conversation(messages);
      if |conversation| <= keepRecent {
        return 0;
      }
      removed := |conversation| - keepRecent;
      var rebuilt := system + [Message(System, Some(TRUNCATION_MARKER))];
      messages := rebuilt + conversation[|conversation| - keepRecent..];
    }

    method Compress(config: CompressorConfig) returns (result: CompressionResult)
      modifies this
      ensures messages == Compressed(old(messages), tools, config)
      ensures result == Report(old(messages), tools, config)
    {
      var before := EstimatedInputTokens();
      var deduped, referenced, trimmed, removed, truncated := 0, 0, 0, 0, 0;
      if config.dedupeSystem {
        deduped := DedupeSystemMessages();
      }
      if config.referenceDuplicateBlocks {
        referenced := ReferenceDuplicateBlocks();
      }
      if config.trimStaleToolResults {
        trimmed := TrimStaleToolResults(STALE_TOOL_RESULT_AGE, TOOL_RESULT_KEEP_EDGE);
      }
      if config.collapseWhitespace {
        removed := CollapseWhitespace();
      }
      if config.truncateHistory {
        truncated := TruncateHistory(config.truncateThreshold, config.keepRecent, config.tokenBudget, before);
      }
      result := CompressionResult(before, EstimatedInputTokens(), deduped, truncated, removed,
                                  referenced, trimmed);
    }
  }

  /** The texts of the large blocks before `upTo`, each with its first position. */
  function Seen(messages: seq<Message>, upTo: nat): map<string, nat>
    requires upTo <= |messages|
  {
    if upTo == 0 then map[]
    else SeenWith(Seen(messages, upTo - 1), messages[upTo - 1], upTo - 1)
  }

  function SeenWith(seen: map<string, nat>, message: Message, index: nat): map<string, nat> {
    if IsBlock(message) && message.Text() !in seen then seen[message.Text() := index] else seen
  }

  lemma {:induction false} SeenIsFirst(messages: seq<Message>, upTo: nat, text: string)
    requires upTo <= |messages|
    ensures text in Seen(messages, upTo) <==> FirstBlock(messages, text) < upTo
    ensures text in Seen(messages, upTo) ==> Seen(messages, upTo)[text] == FirstBlock(messages, text)
  {
    FirstBlockIsFirst(messages, text);
    if upTo > 0 {
      SeenIsFirst(messages, upTo - 1, text);
    }
  }

  lemma RepeatedIsSeen(input: seq<Message>, index: nat)
    requires index < |input|
    ensures var text, seen := input[index].Text(), Seen(input, index);
            && IsRepeatedBlock(input, index) == (IsBlock(input[index]) && text in seen)
            && (text in seen ==> seen[text] == FirstBlock(input, text))
  {
    SeenIsFirst(input, index, input[index].Text());
  }

  lemma ReferenceStep(input: seq<Message>, index: nat)
    requires index < |input|
    ensures ReferencedUpTo(input, index)[index] == input[index]
    ensures var message, text, seen := input[index], input[index].Text(), Seen(input, index);
            && IsRepeatedBlock(input, index) == (IsBlock(message) && text in seen)
            && ReferencedAt(input, index) ==
               if IsBlock(message) && text in seen
               then message.(content := Some(BlockMarker(seen[text] + 1))) else message
  {
    ReferencedPoint(input, index, index);
    RepeatedIsSeen(input, index);
  }

  lemma {:induction false} NothingStale(messages: seq<Message>, from: nat, upTo: nat, staleAge: nat, keepEdge: nat)
    requires from <= upTo <= |messages| <= from + staleAge
    ensures StaleResults(messages, upTo, staleAge, keepEdge) == StaleResults(messages, from, staleAge, keepEdge)
    ensures TrimmedUpTo(messages, upTo, staleAge, keepEdge) == TrimmedUpTo(messages, from, staleAge, keepEdge)
  {
    if from < upTo {
      NothingStale(messages, from, upTo - 1, staleAge, keepEdge);
      TrimmedPoint(messages, upTo - 1, upTo - 1, staleAge, keepEdge);
    }
  }

  lemma {:induction false} Utf8TotalUpdate(messages: seq<Message>, index: nat, message: Message)
    requires index < |messages|
    ensures Utf8Total(messages[index := message]) ==
            Utf8Total(messages) - Utf8Len(messages[index].Text()) + Utf8Len(message.Text())
  {
    if index > 0 {
      Utf8TotalUpdate(messages[1..], index - 1, message);
      assert messages[index := message][1..] == messages[1..][index - 1 := message];
    } else {
      assert messages[index := message][1..] == messages[1..];
    }
  }
}
