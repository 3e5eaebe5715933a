/** What a block reference leads to in the list that the whole pipeline returns. */
module PointerLaws {
  import opened Wrappers
  import opened Messages
  import opened Compressor
  import opened CompressorLaws
  import WhitespaceLaws

  // ---------------------------------------------------------------------------------------
  // Through trimming
  // ---------------------------------------------------------------------------------------

  /** Through trimming a pointer stays as it is, and leads to the text it stands for exactly when the
      first block with that text is no stale tool result. */
  lemma PointerAfterTrimming(messages: seq<Message>, index: nat, staleAge: nat, keepEdge: nat)
    requires index < |messages| <= USIZE_LIMIT && IsRepeatedBlock(messages, index)
    ensures var first := FirstBlock(messages, messages[index].Text());
            var out := Trimmed(Referenced(messages), staleAge, keepEdge);
            && out[index].content == Some(BlockMarker(first + 1))
            && (RestoredAt(out, index).content == messages[index].content <==>
                !IsStaleResult(messages, first, staleAge, keepEdge))
  {
    var n := FirstBlock(messages, messages[index].Text()) + 1;
    PointerMade(messages, index, n);
    PointerTrimmed(Referenced(messages), index, n, staleAge, keepEdge);
  }

  lemma PointerTrimmed(list: seq<Message>, index: nat, n: nat, staleAge: nat, keepEdge: nat)
    requires index < |list| && 1 <= n <= |list| <= USIZE_LIMIT
    requires !list[index].IsInstruction() && list[index].content == Some(BlockMarker(n))
    ensures var out := Trimmed(list, staleAge, keepEdge);
            && out[index].content == Some(BlockMarker(n))
            && (RestoredAt(out, index).content == list[n - 1].content <==> !IsStaleResult(list, n - 1, staleAge, keepEdge))
  {
    SmallStays(list, index, staleAge, keepEdge, n);
    FollowsMarker(Trimmed(list, staleAge, keepEdge), index, n);
    ReferentTrimmed(list, n - 1, staleAge, keepEdge);
  }

  lemma PointerMade(messages: seq<Message>, index: nat, n: nat)
    requires index < |messages| && IsRepeatedBlock(messages, index)
    requires n == FirstBlock(messages, messages[index].Text()) + 1
    ensures var list := Referenced(messages);
            && n <= index && list[index].content == Some(BlockMarker(n)) && !list[index].IsInstruction()
            && list[n - 1] == messages[n - 1] && messages[n - 1].content == messages[index].content
  {
    ReferentIsIntact(messages, index);
  }

  lemma SmallStays(list: seq<Message>, index: nat, staleAge: nat, keepEdge: nat, n: nat)
    requires index < |list| && n <= USIZE_LIMIT && list[index].content == Some(BlockMarker(n))
    ensures Trimmed(list, staleAge, keepEdge)[index] == list[index]
  {
    MarkerIsSmall(n);
    TrimmedPoint(list, |list|, index, staleAge, keepEdge);
  }

  lemma FollowsMarker(list: seq<Message>, index: nat, n: nat)
    requires index < |list| && 1 <= n <= |list|
    requires !list[index].IsInstruction() && list[index].content == Some(BlockMarker(n))
    ensures RestoredAt(list, index).content == list[n - 1].content
  {
    MarkerNumberOfMarker(n);
  }

  lemma ReferentTrimmed(list: seq<Message>, first: nat, staleAge: nat, keepEdge: nat)
    requires first < |list|
    ensures Trimmed(list, staleAge, keepEdge)[first].content == list[first].content <==>
            !IsStaleResult(list, first, staleAge, keepEdge)
  {
    TrimmedPoint(list, |list|, first, staleAge, keepEdge);
    if IsStaleResult(list, first, staleAge, keepEdge) {
      ElidedIsShorter(list[first].Text(), keepEdge);
    }
  }

  // ---------------------------------------------------------------------------------------
  // The whitespace stage can be left to the end
  // ---------------------------------------------------------------------------------------

  function Plain(config: CompressorConfig): CompressorConfig { config.(collapseWhitespace := false) }

  function Spaced(message: Message, config: CompressorConfig): (r: Message)
    ensures r.role == message.role
  {
    if config.collapseWhitespace then CollapsedMessage(message) else message
  }

  function Spacing(messages: seq<Message>, config: CompressorConfig): (r: seq<Message>)
    ensures |r| == |messages| && forall i :: 0 <= i < |messages| ==> r[i] == Spaced(messages[i], config)
  {
    if messages == [] then [] else [Spaced(messages[0], config)] + Spacing(messages[1..], config)
  }

  /** The list that the whitespace stage is given. */
  function Unspaced(messages: seq<Message>, config: CompressorConfig): seq<Message> {
    Rewritten(messages, Plain(config))
  }

  lemma RewrittenIsSpacing(messages: seq<Message>, config: CompressorConfig)
    ensures Rewritten(messages, config) == Spacing(Unspaced(messages, config), config)
  {
    var list := Unspaced(messages, config);
    if config.collapseWhitespace {
      assert Rewritten(messages, config) == CollapsedAll(list);
      forall i | 0 <= i < |list|
        ensures CollapsedAll(list)[i] == CollapsedMessage(list[i])
      {
        CollapsedPoint(list, |list|, i);
      }
    }
  }

  lemma {:induction false} SpacingSplits(messages: seq<Message>, config: CompressorConfig)
    ensures Instructions(Spacing(messages, config)) == Spacing(Instructions(messages), config)
    ensures Conversation(Spacing(messages, config)) == Spacing(Conversation(messages), config)
  {
    if messages != [] {
      var spaced := Spacing(messages, config);
      SpacingSplits(messages[1..], config);
      assert spaced[1..] == Spacing(messages[1..], config);
      assert spaced[0].IsInstruction() == messages[0].IsInstruction();
    }
  }

  predicate Fires(messages: seq<Message>, tools: seq<string>, config: CompressorConfig) {
    Truncates(messages, tools, Plain(config))
  }

  /** The last stage, given either list. */
  function Last(messages: seq<Message>, tools: seq<string>, config: CompressorConfig, list: seq<Message>): seq<Message> {
    Truncated(list, config.truncateThreshold, config.keepRecent, config.tokenBudget, EstimatedTokens(messages, tools))
  }

  lemma FiresAlike(messages: seq<Message>, tools: seq<string>, config: CompressorConfig)
    ensures Truncates(messages, tools, config) == Fires(messages, tools, config)
    ensures var list := Unspaced(messages, config);
            && |Instructions(Spacing(list, config))| == |Instructions(list)|
            && Instructions(Spacing(list, config)) == Spacing(Instructions(list), config)
            && Conversation(Spacing(list, config)) == Spacing(Conversation(list), config)
            && Rewritten(messages, config) == Spacing(list, config)
  {
    RewrittenIsSpacing(messages, config);
    SpacingSplits(Unspaced(messages, config), config);
  }

  lemma LastStage(messages: seq<Message>, tools: seq<string>, config: CompressorConfig)
    ensures var list := Unspaced(messages, config);
            if Fires(messages, tools, config)
            then Compressed(messages, tools, Plain(config)) == Last(messages, tools, config, list) &&
                 Compressed(messages, tools, config) == Last(messages, tools, config, Spacing(list, config))
            else Compressed(messages, tools, Plain(config)) == list &&
                 Compressed(messages, tools, config) == Spacing(list, config)
  {
    FiresAlike(messages, tools, config);
  }

  /** Collapsing whitespace before truncation or after it comes to the same at every position, but for
      the marker that truncation adds. */
  lemma WhitespaceComesLast(messages: seq<Message>, tools: seq<string>, config: CompressorConfig, k: nat)
    ensures var plain, out := Compressed(messages, tools, Plain(config)), Compressed(messages, tools, config);
            && |out| == |plain|
            && (k < |out| ==>
                  out[k] == if Fires(messages, tools, config) && k == |Instructions(Unspaced(messages, config))|
                            then plain[k] else Spaced(plain[k], config))
  {
    LastStage(messages, tools, config);
    if Fires(messages, tools, config) {
      var list := Unspaced(messages, config);
      FiresAlike(messages, tools, config);
      TruncatedSpaced(list, config, EstimatedTokens(messages, tools), k);
      assert SpacedAt(list, Compressed(messages, tools, Plain(config)), Compressed(messages, tools, config), config, k);
    }
  }

  /** Position `k` of the two lists, one with the whitespace stage and one without. */
  predicate SpacedAt(list: seq<Message>, plain: seq<Message>, out: seq<Message>, config: CompressorConfig, k: nat) {
    k < |out| && k < |plain| ==>
      out[k] == if k == |Instructions(list)| then plain[k] else Spaced(plain[k], config)
  }

  lemma TruncatedSpaced(list: seq<Message>, config: CompressorConfig, tokens: nat, k: nat)
    requires Instructions(Spacing(list, config)) == Spacing(Instructions(list), config)
    requires Conversation(Spacing(list, config)) == Spacing(Conversation(list), config)
    requires TruncationFires(list, config.truncateThreshold, config.keepRecent, config.tokenBudget, tokens)
    ensures var plain := Truncated(list, config.truncateThreshold, config.keepRecent, config.tokenBudget, tokens);
            var out := Truncated(Spacing(list, config), config.truncateThreshold, config.keepRecent,
                                 config.tokenBudget, tokens);
            |out| == |plain| && SpacedAt(list, plain, out, config, k)
  {
    TruncatedAt(list, config.truncateThreshold, config.keepRecent, config.tokenBudget, tokens, k);
    TruncatedAt(Spacing(list, config), config.truncateThreshold, config.keepRecent, config.tokenBudget, tokens, k);
  }

  // ---------------------------------------------------------------------------------------
  // Through the whole pipeline
  // ---------------------------------------------------------------------------------------

  /** The tool result at this position loses its middle. */
  predicate Elides(messages: seq<Message>, config: CompressorConfig, index: nat)
    requires index < |messages|
  {
    config.trimStaleToolResults && IsStaleResult(messages, index, STALE_TOOL_RESULT_AGE, TOOL_RESULT_KEEP_EDGE)
  }

  lemma UnspacedAt(messages: seq<Message>, config: CompressorConfig, i: nat)
    requires config.referenceDuplicateBlocks && i < |Deduped(messages, config)|
    ensures var list := Referenced(Deduped(messages, config));
            && |Unspaced(messages, config)| == |list|
            && Unspaced(messages, config)[i] ==
               if Elides(list, config, i)
               then list[i].(content := Some(Elided(list[i].Text(), TOOL_RESULT_KEEP_EDGE))) else list[i]
  {
    var list := Referenced(Deduped(messages, config));
    if config.trimStaleToolResults {
      TrimmedPoint(list, |list|, i, STALE_TOOL_RESULT_AGE, TOOL_RESULT_KEEP_EDGE);
    }
  }

  /** A large block at the first position with its text: what pointers number. */
  predicate IsReferent(deduped: seq<Message>, j: nat) {
    j < |deduped| <= USIZE_LIMIT && IsBlock(deduped[j]) && FirstBlock(deduped, deduped[j].Text()) == j
  }

  /** Where truncation puts a conversation message of `list`, when it keeps it. */
  predicate MovesTo(list: seq<Message>, keepRecent: nat, i: nat, k: nat)
    requires i < |list|
  {
    var cut := |Conversation(list)| - keepRecent;
    Place(list, i) >= cut && k == |Instructions(list)| + 1 + Place(list, i) - cut
  }

  /** The message is kept, and as many messages before it are dropped as the truncation marker and the
      instructions after it come to; or nothing is dropped at all. */
  predicate KeepsNumber(messages: seq<Message>, tools: seq<string>, config: CompressorConfig, j: nat)
    requires j < |Unspaced(messages, config)|
  {
    var list := Unspaced(messages, config);
    var cut := |Conversation(list)| - config.keepRecent;
    Fires(messages, tools, config) ==> Place(list, j) >= cut && cut == 1 + |Instructions(list[j..])|
  }

  /** An instruction, or another tool result with its middle gone, has come to stand at the number, and
      happens to read just like the block. */
  predicate TakenOver(messages: seq<Message>, tools: seq<string>, config: CompressorConfig, j: nat,
                      content: Option<string>)
    requires config.referenceDuplicateBlocks
    requires |Unspaced(messages, config)| == |Referenced(Deduped(messages, config))|
  {
    var list, referenced := Unspaced(messages, config), Referenced(Deduped(messages, config));
    && Fires(messages, tools, config)
    && (|| (j < |Instructions(list)| && Instructions(list)[j].content == content)
        || exists i :: 0 <= i < |list| && i != j && Elides(referenced, config, i) &&
                       MovesTo(list, config.keepRecent, i, j) && list[i].content == content)
  }

  lemma PlaceGrows(messages: seq<Message>, a: nat, b: nat)
    requires a < b < |messages| && !messages[a].IsInstruction()
    ensures Place(messages, a) < Place(messages, b)
  {
    assert messages[..b] == messages[..a] + messages[a..b];
    ConversationConcat(messages[..a], messages[a..b]);
    assert Conversation(messages[a..b])[0] == messages[a];
  }

  lemma PlaceIsUnique(messages: seq<Message>, a: nat, b: nat)
    requires a < |messages| && b < |messages| && !messages[a].IsInstruction() && !messages[b].IsInstruction()
    requires Place(messages, a) == Place(messages, b)
    ensures a == b
  {
    if a < b {
      PlaceGrows(messages, a, b);
    } else if b < a {
      PlaceGrows(messages, b, a);
    }
  }

  /** Before truncation the block reads as it did exactly when it is no stale tool result, and nothing
      else in the conversation does but a result that lost its middle. */
  lemma ReferentBefore(messages: seq<Message>, config: CompressorConfig, j: nat, i: nat)
    requires config.referenceDuplicateBlocks && IsReferent(Deduped(messages, config), j)
    requires i < |Deduped(messages, config)|
    ensures var block, list, referenced := Deduped(messages, config)[j], Unspaced(messages, config),
                                           Referenced(Deduped(messages, config));
            && |list| == |referenced| && referenced[j] == block
            && list[i].role == referenced[i].role
            && (i == j ==> (list[i].content == block.content <==> !Elides(referenced, config, j)))
            && (i != j && !list[i].IsInstruction() && list[i].content == block.content ==> Elides(referenced, config, i))
  {
    var deduped := Deduped(messages, config);
    var referenced := Referenced(deduped);
    UnspacedAt(messages, config, i);
    ReferencedPoint(deduped, |deduped|, j);
    ReferencedPoint(deduped, |deduped|, i);
    if i == j {
      if Elides(referenced, config, j) {
        ElidedIsShorter(referenced[j].Text(), TOOL_RESULT_KEEP_EDGE);
      }
    } else if !referenced[i].IsInstruction() && referenced[i].content == deduped[j].content {
      BlockStandsOnce(deduped, j, i);
    }
  }

  /** When truncation fires, the position holds a message of the list it was given, or its marker. */
  lemma StandsAt(list: seq<Message>, threshold: nat, keepRecent: nat, tokenBudget: Option<nat>, tokens: nat, k: nat)
    returns (i: nat)
    requires TruncationFires(list, threshold, keepRecent, tokenBudget, tokens)
    requires |Instructions(list)| < k < |Truncated(list, threshold, keepRecent, tokenBudget, tokens)|
    ensures i < |list| && !list[i].IsInstruction() && MovesTo(list, keepRecent, i, k)
    ensures Truncated(list, threshold, keepRecent, tokenBudget, tokens)[k] == list[i]
  {
    TruncatedAt(list, threshold, keepRecent, tokenBudget, tokens, k);
    i := PlaceTaken(list, |Conversation(list)| - keepRecent + (k - |Instructions(list)| - 1));
    PlaceHolds(list, i);
  }

  lemma MovesToIsUnique(list: seq<Message>, keepRecent: nat, a: nat, b: nat, k: nat)
    requires a < |list| && b < |list| && !list[a].IsInstruction() && !list[b].IsInstruction()
    requires MovesTo(list, keepRecent, a, k) && MovesTo(list, keepRecent, b, k)
    ensures a == b
  {
    PlaceIsUnique(list, a, b);
  }

  lemma MovesToWithin(list: seq<Message>, threshold: nat, keepRecent: nat, tokenBudget: Option<nat>, tokens: nat,
                      i: nat, k: nat)
    requires TruncationFires(list, threshold, keepRecent, tokenBudget, tokens)
    requires i < |list| && !list[i].IsInstruction() && MovesTo(list, keepRecent, i, k)
    ensures |Instructions(list)| < k < |Truncated(list, threshold, keepRecent, tokenBudget, tokens)|
  {
    NumberKept(list, i, threshold, keepRecent, tokenBudget, tokens);
  }

  /** The number of a block, as a position in the list before the last whitespace pass, holds its text. */
  predicate NumberIsRight(messages: seq<Message>, tools: seq<string>, config: CompressorConfig, j: nat,
                          content: Option<string>)
  {
    var plain := Compressed(messages, tools, Plain(config));
    j < |plain| && plain[j].content == content
  }

  lemma RightWithoutTruncation(messages: seq<Message>, tools: seq<string>, config: CompressorConfig, j: nat)
    requires config.referenceDuplicateBlocks && IsReferent(Deduped(messages, config), j)
    requires !Fires(messages, tools, config)
    ensures NumberIsRight(messages, tools, config, j, Deduped(messages, config)[j].content) <==>
            !Elides(Referenced(Deduped(messages, config)), config, j)
  {
    ReferentBefore(messages, config, j, j);
    assert Compressed(messages, tools, Plain(config)) == Unspaced(messages, config);
  }

  lemma KeepsNumberMeans(messages: seq<Message>, tools: seq<string>, config: CompressorConfig, j: nat)
    requires j < |Unspaced(messages, config)| && !Unspaced(messages, config)[j].IsInstruction()
    requires Fires(messages, tools, config)
    ensures KeepsNumber(messages, tools, config, j) <==> MovesTo(Unspaced(messages, config), config.keepRecent, j, j)
  {
    PlaceHolds(Unspaced(messages, config), j);
  }

  lemma RightWithTruncation(messages: seq<Message>, tools: seq<string>, config: CompressorConfig, j: nat)
    requires config.referenceDuplicateBlocks && IsReferent(Deduped(messages, config), j)
    requires Fires(messages, tools, config)
    ensures |Unspaced(messages, config)| == |Referenced(Deduped(messages, config))|
    ensures var block := Deduped(messages, config)[j];
            NumberIsRight(messages, tools, config, j, block.content) <==>
            || (!Elides(Referenced(Deduped(messages, config)), config, j) && KeepsNumber(messages, tools, config, j))
            || TakenOver(messages, tools, config, j, block.content)
  {
    var list, block := Unspaced(messages, config), Deduped(messages, config)[j];
    var tokens, front := EstimatedTokens(messages, tools), |Instructions(list)|;
    var plain := Truncated(list, config.truncateThreshold, config.keepRecent, config.tokenBudget, tokens);
    assert Compressed(messages, tools, Plain(config)) == plain;
    ReferentBefore(messages, config, j, j);
    KeepsNumberMeans(messages, tools, config, j);
    TruncatedAt(list, config.truncateThreshold, config.keepRecent, config.tokenBudget, tokens, j);
    forall i: nat | i < |list| && !list[i].IsInstruction() && MovesTo(list, config.keepRecent, i, j)
      ensures front < j < |plain|
    {
      MovesToWithin(list, config.truncateThreshold, config.keepRecent, config.tokenBudget, tokens, i, j);
    }
    forall i: nat | i < |list| && Elides(Referenced(Deduped(messages, config)), config, i)
      ensures !list[i].IsInstruction()
    {
      ReferentBefore(messages, config, j, i);
    }
    if front < j < |plain| {
      var i := StandsAt(list, config.truncateThreshold, config.keepRecent, config.tokenBudget, tokens, j);
      ReferentBefore(messages, config, j, i);
      forall k: nat | k < |list| && !list[k].IsInstruction() && MovesTo(list, config.keepRecent, k, j)
        ensures k == i
      {
        MovesToIsUnique(list, config.keepRecent, k, i, j);
      }
    } else if j == front {
      MarkerIsNoBlock(block);
    }
  }

  /** A block's number is right in the list that the pipeline returns, up to the whitespace stage that
      every message goes through, exactly when the block is no stale tool result and keeps its number
      through truncation, or something that reads just like it has taken over the number. */
  lemma PointerInFinalList(messages: seq<Message>, tools: seq<string>, config: CompressorConfig, j: nat)
    requires config.referenceDuplicateBlocks && IsReferent(Deduped(messages, config), j)
    ensures |Unspaced(messages, config)| == |Referenced(Deduped(messages, config))|
    ensures var block, whole := Deduped(messages, config)[j], !Elides(Referenced(Deduped(messages, config)), config, j);
            && (NumberIsRight(messages, tools, config, j, block.content) <==>
                (whole && KeepsNumber(messages, tools, config, j)) ||
                TakenOver(messages, tools, config, j, block.content))
            && (whole && KeepsNumber(messages, tools, config, j) ==>
                j < |Compressed(messages, tools, config)| &&
                Compressed(messages, tools, config)[j] == Spaced(block, config))
  {
    ReferentBefore(messages, config, j, j);
    WhitespaceComesLast(messages, tools, config, j);
    if Fires(messages, tools, config) {
      RightWithTruncation(messages, tools, config, j);
      if KeepsNumber(messages, tools, config, j) {
        KeptInPlace(messages, tools, config, j);
      }
    } else {
      RightWithoutTruncation(messages, tools, config, j);
      assert Compressed(messages, tools, Plain(config)) == Unspaced(messages, config);
      UnspacedAt(messages, config, j);
    }
  }

  lemma KeptInPlace(messages: seq<Message>, tools: seq<string>, config: CompressorConfig, j: nat)
    requires j < |Unspaced(messages, config)| && !Unspaced(messages, config)[j].IsInstruction()
    requires Fires(messages, tools, config) && KeepsNumber(messages, tools, config, j)
    ensures |Instructions(Unspaced(messages, config))| < j < |Compressed(messages, tools, Plain(config))|
    ensures Compressed(messages, tools, Plain(config))[j] == Unspaced(messages, config)[j]
  {
    NumberKept(Unspaced(messages, config), j, config.truncateThreshold, config.keepRecent, config.tokenBudget,
               EstimatedTokens(messages, tools));
    KeepsNumberMeans(messages, tools, config, j);
  }

  // ---------------------------------------------------------------------------------------
  // A result that arrives nowhere
  // ---------------------------------------------------------------------------------------

  lemma {:induction false} NothingDeduped(messages: seq<Message>, seen: seq<string>)
    requires forall i :: 0 <= i < |messages| ==> !messages[i].IsInstruction()
    ensures DedupedSystem(messages, seen) == messages
  {
    if messages != [] {
      NothingDeduped(messages[1..], seen);
      assert [messages[0]] + messages[1..] == messages;
    }
  }

  /** A tool result at both ends of eight messages, and little between them. */
  function ResultTwice(result: Message, filler: Message): (r: seq<Message>)
    ensures |r| == 8 && r[0] == r[7] == result && forall i :: 0 < i < 7 ==> r[i] == filler
  {
    [result, filler, filler, filler, filler, filler, filler, result]
  }

  predicate IsLargeResult(result: Message) {
    result.role.Tool? && result.content.Some? && |result.Text()| >= TOOL_RESULT_KEEP_EDGE * 2 + LARGE_BLOCK_CHARS
  }

  lemma ResultReferenced(result: Message, filler: Message, i: nat)
    requires IsLargeResult(result) && !filler.IsInstruction() && Utf8Len(filler.Text()) < LARGE_BLOCK_CHARS && i < 8
    ensures Referenced(ResultTwice(result, filler))[i] ==
            if i == 0 then result else if i == 7 then result.(content := Some(BlockMarker(1))) else filler
  {
    var messages := ResultTwice(result, filler);
    FirstBlockIsFirst(messages, result.Text());
    ReferencedPoint(messages, 8, i);
  }

  lemma ResultShortened(result: Message, filler: Message, i: nat)
    requires IsLargeResult(result) && !filler.IsInstruction() && Utf8Len(filler.Text()) < LARGE_BLOCK_CHARS && i < 8
    ensures var list := Unspaced(ResultTwice(result, filler), DEFAULT_CONFIG);
            |list| == 8 && |list[i].Text()| < |result.Text()|
  {
    var messages := ResultTwice(result, filler);
    NothingDeduped(messages, []);
    ResultReferenced(result, filler, i);
    UnspacedAt(messages, DEFAULT_CONFIG, i);
    if i == 0 {
      ElidedIsShorter(result.Text(), TOOL_RESULT_KEEP_EDGE);
    } else if i == 7 {
      MarkerIsSmall(1);
    }
  }

  /** An input on which the newest tool result arrives nowhere whole: it repeats one that has become
      stale, so it turns into a pointer to a text that has lost its middle. */
  lemma NewestResultCanBeLost(result: Message, filler: Message, tools: seq<string>)
    requires IsLargeResult(result)
    requires !filler.IsInstruction() && Utf8Len(filler.Text()) < LARGE_BLOCK_CHARS
    ensures var out := Compressed(ResultTwice(result, filler), tools, DEFAULT_CONFIG);
            && |out| == 8
            && (forall i :: 0 <= i < 8 ==> |out[i].Text()| < |result.Text()|)
            && (forall i :: 0 <= i < 8 && CollapsedMessage(result) == result ==>
                  out[i].content != CollapsedMessage(result).content)
  {
    var messages := ResultTwice(result, filler);
    var list := Unspaced(messages, DEFAULT_CONFIG);
    ResultShortened(result, filler, 0);
    RewrittenIsSpacing(messages, DEFAULT_CONFIG);
    assert Compressed(messages, tools, DEFAULT_CONFIG) == Spacing(list, DEFAULT_CONFIG);
    forall i | 0 <= i < 8
      ensures |Spacing(list, DEFAULT_CONFIG)[i].Text()| < |result.Text()|
    {
      ResultShortened(result, filler, i);
      WhitespaceLaws.CollapseNeverGrows(list[i].Text());
    }
  }
}
