/** What the compressor's message-level stages keep, and the bound on what the pipeline can add. */
module CompressorLaws {
  import opened Decimal
  import opened Wrappers
  import opened Messages
  import opened Compressor
  import Whitespace
  import WhitespaceLaws

  // ---------------------------------------------------------------------------------------
  // Duplicate system messages
  // ---------------------------------------------------------------------------------------

  /** The non-empty instruction texts, in order. */
  function InstructionTexts(messages: seq<Message>): seq<string> {
    if messages == [] then []
    else (if messages[0].IsInstruction() && messages[0].Text() != "" then [messages[0].Text()] else []) +
         InstructionTexts(messages[1..])
  }

  /** The texts not seen so far, each at its first occurrence. */
  function FirstOccurrences(texts: seq<string>, seen: seq<string>): seq<string> {
    if texts == [] then []
    else if texts[0] in seen then FirstOccurrences(texts[1..], seen)
    else [texts[0]] + FirstOccurrences(texts[1..], seen + [texts[0]])
  }

  /** Only repeats of an earlier instruction go: the conversation is untouched, and of the
      instruction texts exactly the first occurrences stay, in order. */
  lemma {:induction false} DedupeKeepsFirsts(messages: seq<Message>, seen: seq<string>)
    ensures Conversation(DedupedSystem(messages, seen)) == Conversation(messages)
    ensures InstructionTexts(DedupedSystem(messages, seen)) == FirstOccurrences(InstructionTexts(messages), seen)
  {
    if messages != [] {
      var m := messages[0];
      var out, rest := DedupedSystem(messages, seen), DedupedSystem(messages[1..], SeenAfter(m, seen));
      DedupeKeepsFirsts(messages[1..], SeenAfter(m, seen));
      if IsRepeat(m, seen) {
        assert out == rest;
      } else {
        assert out == [m] + rest && out[1..] == rest;
      }
      if m.IsInstruction() && m.Text() != "" {
        assert InstructionTexts(messages)[1..] == InstructionTexts(messages[1..]);
      } else {
        assert InstructionTexts(messages) == InstructionTexts(messages[1..]);
      }
    }
  }

  lemma {:induction false} FirstOccurrencesAreDistinct(texts: seq<string>, seen: seq<string>)
    ensures var r := FirstOccurrences(texts, seen);
            && (forall i, j :: 0 <= i < j < |r| ==> r[i] != r[j])
            && (forall t :: t in r <==> t in texts && t !in seen)
  {
    if texts != [] {
      var t := texts[0];
      var later := if t in seen then seen else seen + [t];
      FirstOccurrencesAreDistinct(texts[1..], later);
      var rest := FirstOccurrences(texts[1..], later);
      assert forall j :: 0 <= j < |rest| ==> rest[j] in rest && rest[j] !in later;
    }
  }

  // ---------------------------------------------------------------------------------------
  // Duplicate blocks
  // ---------------------------------------------------------------------------------------

  /** The number a block marker carries, when the text has exactly a marker's form. */
  function MarkerNumber(text: string): (r: Option<nat>)
    ensures r.Some? ==> text == BlockMarker(r.value)
  {
    var inner := |text| - |MARKER_TAIL|;
    if inner >= |MARKER_HEAD| && AllDigits(text[|MARKER_HEAD|..inner]) &&
       text == BlockMarker(Value(text[|MARKER_HEAD|..inner]))
    then Some(Value(text[|MARKER_HEAD|..inner])) else None
  }

  lemma MarkerNumberOfMarker(n: nat)
    ensures MarkerNumber(BlockMarker(n)) == Some(n)
  {
    var text := BlockMarker(n);
    assert text[|MARKER_HEAD|..|text| - |MARKER_TAIL|] == Dec(n);
    ValueOfDec(n);
  }

  /** Replaces a marker by the content of the message it numbers. */
  function RestoredAt(messages: seq<Message>, index: nat): Message
    requires index < |messages|
  {
    var m := messages[index];
    if m.IsInstruction() || m.content.None? then m
    else match MarkerNumber(m.Text())
      case Some(n) => if 1 <= n <= |messages| then m.(content := messages[n - 1].content) else m
      case None => m
  }

  function RestoredUpTo(messages: seq<Message>, upTo: nat): (r: seq<Message>)
    requires upTo <= |messages|
    ensures |r| == upTo
  {
    if upTo == 0 then [] else RestoredUpTo(messages, upTo - 1) + [RestoredAt(messages, upTo - 1)]
  }

  function Restored(messages: seq<Message>): seq<Message> { RestoredUpTo(messages, |messages|) }

  /** A pointer leads to an earlier message that is no instruction, was left as it was, and holds
      the very text the pointer stands for. */
  lemma ReferentIsIntact(messages: seq<Message>, index: nat)
    requires index < |messages| && IsRepeatedBlock(messages, index)
    ensures var first := FirstBlock(messages, messages[index].Text());
            var out := Referenced(messages);
            && first < index && !messages[first].IsInstruction()
            && out[first] == messages[first] && messages[first].content == messages[index].content
            && out[index] == messages[index].(content := Some(BlockMarker(first + 1)))
  {
    var text := messages[index].Text();
    FirstBlockIsFirst(messages, text);
    ReferencedPoint(messages, |messages|, FirstBlock(messages, text));
    ReferencedPoint(messages, |messages|, index);
  }

  /** A vector of the gateway's language has fewer elements than this. */
  const USIZE_LIMIT := 0x1_0000_0000_0000_0000

  lemma {:induction false} Pow10Sum(a: nat, b: nat)
    ensures Pow10(a + b) == Pow10(a) * Pow10(b)
  {
    if a > 0 {
      Pow10Sum(a - 1, b);
    }
  }

  lemma IndexDigits(n: nat)
    requires n <= USIZE_LIMIT
    ensures |Dec(n)| <= 20
  {
    assert Pow10(5) == 100_000;
    Pow10Sum(5, 5);
    Pow10Sum(10, 10);
    DecShort(n, 20);
  }

  lemma MembersAreAscii(s: string)
    requires forall c :: c in s ==> c as int < 0x80
    ensures Utf8Len(s) == |s|
  {
    assert forall i :: 0 <= i < |s| ==> s[i] in s;
    AsciiLength(s);
  }

  lemma OpeningBytes()
    ensures Utf8Len("[Identical to the content") == 25
  {
    MembersAreAscii("[Identical to the content");
  }

  lemma BytesOfParts(a: string, b: string, c: string, d: string, e: string)
    ensures Utf8Len(a + b + c + d + e) <= Utf8Len(a) + 4 * |b| + 4 * |c| + Utf8Len(d) + 4 * |e|
  {
    Utf8LenConcat(a, b);
    Utf8LenConcat(a + b, c);
    Utf8LenConcat(a + b + c, d);
    Utf8LenConcat(a + b + c + d, e);
  }

  /** A block marker is itself no large block. */
  lemma MarkerIsSmall(n: nat)
    requires n <= USIZE_LIMIT
    ensures Utf8Len(BlockMarker(n)) < LARGE_BLOCK_CHARS && |BlockMarker(n)| <= 127
  {
    var number := Dec(n);
    IndexDigits(n);
    AsciiLength(number);
    OpeningBytes();
    BytesOfParts("[Identical to the content", " already provided in", " message ", number, MARKER_TAIL);
  }

  /** The message reads like a marker, and following it leads to something else. */
  predicate Misleads(messages: seq<Message>, index: nat)
    requires index < |messages|
  {
    !messages[index].IsInstruction() && messages[index].content.Some? &&
    match MarkerNumber(messages[index].Text())
    case Some(n) => 1 <= n <= |messages| && messages[n - 1].content != messages[index].content
    case None => false
  }

  /** `MarkerNumber` finds the number of every marker. */
  lemma MisleadingMarker(messages: seq<Message>, index: nat)
    requires index < |messages|
    ensures Misleads(messages, index) <==>
            !messages[index].IsInstruction() &&
            exists n :: 1 <= n <= |messages| && messages[index].content == Some(BlockMarker(n)) &&
                        messages[n - 1].content != messages[index].content
  {
    if n: nat :| 1 <= n <= |messages| && messages[index].content == Some(BlockMarker(n)) &&
                 messages[n - 1].content != messages[index].content
    {
      MarkerNumberOfMarker(n);
    }
    if Misleads(messages, index) {
      var n := MarkerNumber(messages[index].Text()).value;
      assert messages[index].content == Some(BlockMarker(n));
    }
  }

  lemma RepeatedBlockRestored(messages: seq<Message>, index: nat)
    requires index < |messages| <= USIZE_LIMIT && IsRepeatedBlock(messages, index)
    ensures RestoredAt(Referenced(messages), index) == messages[index] && !Misleads(messages, index)
  {
    var number := MarkerNumber(messages[index].Text());
    ReferentIsIntact(messages, index);
    MarkerNumberOfMarker(FirstBlock(messages, messages[index].Text()) + 1);
    if number.Some? && number.value <= |messages| {
      MarkerIsSmall(number.value);
    }
  }

  lemma RestoreStep(messages: seq<Message>, index: nat)
    requires index < |messages| <= USIZE_LIMIT
    ensures RestoredAt(Referenced(messages), index) == messages[index] <==> !Misleads(messages, index)
  {
    if IsRepeatedBlock(messages, index) {
      RepeatedBlockRestored(messages, index);
    } else {
      ReferencedPoint(messages, |messages|, index);
      assert Referenced(messages)[index] == messages[index];
      var number := MarkerNumber(messages[index].Text());
      if messages[index].content.Some? && number.Some? && 1 <= number.value <= |messages| {
        MarkerTargetUnchanged(messages, messages[index], number.value);
      }
    }
  }

  /** Referencing does not make a message equal to a marker that numbers it, nor unequal. */
  lemma MarkerTargetUnchanged(messages: seq<Message>, m: Message, n: nat)
    requires 1 <= n <= |messages| <= USIZE_LIMIT && m.content == Some(BlockMarker(n))
    ensures Referenced(messages)[n - 1].content == m.content <==> messages[n - 1].content == m.content
  {
    ReferencedPoint(messages, |messages|, n - 1);
    if IsRepeatedBlock(messages, n - 1) {
      var first := FirstBlock(messages, messages[n - 1].Text());
      MarkerNumberOfMarker(n);
      MarkerNumberOfMarker(first + 1);
      MarkerIsSmall(n);
    }
  }

  lemma {:induction false} RestoredPoint(messages: seq<Message>, upTo: nat, index: nat)
    requires index < upTo <= |messages|
    ensures RestoredUpTo(messages, upTo)[index] == RestoredAt(messages, index)
  {
    if index < upTo - 1 {
      RestoredPoint(messages, upTo - 1, index);
    }
  }

  /** Following the pointers rebuilds the list exactly when no conversation text reads like a marker
      for a message whose content is another. */
  lemma ReferencingIsReversible(messages: seq<Message>)
    requires |messages| <= USIZE_LIMIT
    ensures Restored(Referenced(messages)) == messages <==>
            forall i :: 0 <= i < |messages| ==> !Misleads(messages, i)
  {
    forall i | 0 <= i < |messages|
      ensures Restored(Referenced(messages))[i] == messages[i] <==> !Misleads(messages, i)
    {
      RestoredPoint(Referenced(messages), |messages|, i);
      RestoreStep(messages, i);
    }
  }

  /** An input on which it fails: a message that reads like a pointer to another one. */
  lemma MarkerInInputIsMisread(first: Message, pointer: Message)
    requires !pointer.IsInstruction() && pointer.content == Some(BlockMarker(1)) && first.content != pointer.content
    ensures Restored(Referenced([first, pointer])) != [first, pointer]
  {
    MarkerNumberOfMarker(1);
    assert Misleads([first, pointer], 1);
    ReferencingIsReversible([first, pointer]);
  }

  // ---------------------------------------------------------------------------------------
  // Stale tool results
  // ---------------------------------------------------------------------------------------

  /** A trimmed text is shorter, and keeps `keepEdge` characters at each end. */
  lemma ElidedIsShorter(text: string, keepEdge: nat)
    requires |text| >= keepEdge * 2 + LARGE_BLOCK_CHARS
    ensures var r := Elided(text, keepEdge);
            |r| < |text| && r[..keepEdge] == text[..keepEdge] && r[|r| - keepEdge..] == text[|text| - keepEdge..]
  {
    var removed := |text| - keepEdge * 2;
    DecMuchShorter(removed);
    assert |ElisionMarker(removed)| < removed;
  }

  /** Only large tool results out of the last `staleAge` messages' reach are touched. Of those the
      text keeps its ends, and names how many characters went from between them. */
  lemma TrimmingIsConfined(messages: seq<Message>, index: nat, staleAge: nat, keepEdge: nat)
    requires index < |messages|
    ensures var before, after := messages[index], Trimmed(messages, staleAge, keepEdge)[index];
            var text, size := before.Text(), |before.Text()|;
            if before.role.Tool? && index + staleAge < |messages| && size >= keepEdge * 2 + LARGE_BLOCK_CHARS
            then after == before.(content := Some(
                   text[..keepEdge] + ElisionMarker(|text[keepEdge..size - keepEdge]|) + text[size - keepEdge..]))
            else after == before
  {
    TrimmedPoint(messages, |messages|, index, staleAge, keepEdge);
  }

  lemma ElidedIsSettled(text: string, keepEdge: nat)
    requires keepEdge * 2 <= |text| <= USIZE_LIMIT
    ensures |Elided(text, keepEdge)| < keepEdge * 2 + LARGE_BLOCK_CHARS
  {
    var removed := |text| - keepEdge * 2;
    IndexDigits(removed);
    assert |ElisionMarker(removed)| < 100;
  }

  /** Trimming its own output changes nothing: what is left of a result is never large. */
  lemma TrimmingSettles(messages: seq<Message>, staleAge: nat, keepEdge: nat)
    requires forall i :: 0 <= i < |messages| ==> |messages[i].Text()| <= USIZE_LIMIT
    ensures Trimmed(Trimmed(messages, staleAge, keepEdge), staleAge, keepEdge) == Trimmed(messages, staleAge, keepEdge)
  {
    var once := Trimmed(messages, staleAge, keepEdge);
    forall i | 0 <= i < |messages|
      ensures Trimmed(once, staleAge, keepEdge)[i] == once[i]
    {
      TrimmedPoint(messages, |messages|, i, staleAge, keepEdge);
      TrimmedPoint(once, |messages|, i, staleAge, keepEdge);
      if IsStaleResult(messages, i, staleAge, keepEdge) {
        ElidedIsSettled(messages[i].Text(), keepEdge);
      }
    }
  }

  // ---------------------------------------------------------------------------------------
  // Whitespace
  // ---------------------------------------------------------------------------------------

  /** The whitespace stage leaves every message its role, its words and its fenced lines. */
  lemma WhitespaceStageIsLossless(messages: seq<Message>, index: nat)
    requires index < |messages|
    ensures var before, after := messages[index], CollapsedAll(messages)[index];
            && after.role == before.role
            && WhitespaceLaws.Words(after.Text()) == WhitespaceLaws.Words(before.Text())
            && WhitespaceLaws.FencedLines(Whitespace.SplitLines(after.Text()), false) ==
               WhitespaceLaws.FencedLines(Whitespace.SplitLines(before.Text()), false)
  {
    CollapsedPoint(messages, |messages|, index);
    WhitespaceLaws.CollapseKeepsWords(messages[index].Text());
    WhitespaceLaws.CollapseKeepsFencedLines(messages[index].Text());
  }

  // ---------------------------------------------------------------------------------------
  // Truncation
  // ---------------------------------------------------------------------------------------

  lemma {:induction false} InstructionsConcat(a: seq<Message>, b: seq<Message>)
    ensures Instructions(a + b) == Instructions(a) + Instructions(b)
  {
    if a == [] {
      assert a + b == b && Instructions(a) == [];
    } else {
      var rest := a[1..];
      InstructionsConcat(rest, b);
      assert (a + b)[0] == a[0] && (a + b)[1..] == rest + b;
      assert [a[0]] + (Instructions(rest) + Instructions(b)) == [a[0]] + Instructions(rest) + Instructions(b);
    }
  }

  lemma {:induction false} ConversationConcat(a: seq<Message>, b: seq<Message>)
    ensures Conversation(a + b) == Conversation(a) + Conversation(b)
  {
    if a == [] {
      assert a + b == b && Conversation(a) == [];
    } else {
      var rest := a[1..];
      ConversationConcat(rest, b);
      assert (a + b)[0] == a[0] && (a + b)[1..] == rest + b;
      assert [a[0]] + (Conversation(rest) + Conversation(b)) == [a[0]] + Conversation(rest) + Conversation(b);
    }
  }

  lemma {:induction false} SplitSorts(messages: seq<Message>)
    ensures forall m :: m in Instructions(messages) ==> m.IsInstruction()
    ensures forall m :: m in Conversation(messages) ==> !m.IsInstruction()
  {
    if messages != [] {
      SplitSorts(messages[1..]);
    }
  }

  lemma {:induction false} OnlyInstructions(messages: seq<Message>)
    requires forall m :: m in messages ==> m.IsInstruction()
    ensures Instructions(messages) == messages && Conversation(messages) == []
  {
    if messages != [] {
      OnlyInstructions(messages[1..]);
    }
  }

  lemma {:induction false} OnlyConversation(messages: seq<Message>)
    requires forall m :: m in messages ==> !m.IsInstruction()
    ensures Instructions(messages) == [] && Conversation(messages) == messages
  {
    if messages != [] {
      OnlyConversation(messages[1..]);
    }
  }

  lemma InstructionsThenConversation(front: seq<Message>, back: seq<Message>)
    requires forall m :: m in front ==> m.IsInstruction()
    requires forall m :: m in back ==> !m.IsInstruction()
    ensures Instructions(front + back) == front && Conversation(front + back) == back
  {
    OnlyInstructions(front);
    OnlyConversation(back);
    InstructionsConcat(front, back);
    ConversationConcat(front, back);
  }

  /** Truncation keeps every instruction, adds one marker after them, and keeps exactly the last
      `keepRecent` other messages, all in order. */
  lemma TruncationKeeps(messages: seq<Message>, threshold: nat, keepRecent: nat, tokenBudget: Option<nat>, tokens: nat)
    requires TruncationFires(messages, threshold, keepRecent, tokenBudget, tokens)
    ensures var out := Truncated(messages, threshold, keepRecent, tokenBudget, tokens);
            && Instructions(out) == Instructions(messages) + [Message(System, Some(TRUNCATION_MARKER))]
            && |Conversation(out)| == keepRecent
            && Conversation(out) == Conversation(messages)[|Conversation(messages)| - keepRecent..]
            && out == Instructions(out) + Conversation(out)
  {
    SplitSorts(messages);
    InstructionsThenConversation(
      Instructions(messages) + [Message(System, Some(TRUNCATION_MARKER))],
      Conversation(messages)[|Conversation(messages)| - keepRecent..]);
  }

  /** Truncating again changes nothing, whatever the threshold, the budget or the estimate. */
  lemma TruncationSettles(messages: seq<Message>, threshold: nat, keepRecent: nat, tokenBudget: Option<nat>, tokens: nat,
                          threshold': nat, tokenBudget': Option<nat>, tokens': nat)
    requires TruncationFires(messages, threshold, keepRecent, tokenBudget, tokens)
    ensures var out := Truncated(messages, threshold, keepRecent, tokenBudget, tokens);
            Truncated(out, threshold', keepRecent, tokenBudget', tokens') == out
  {
    TruncationKeeps(messages, threshold, keepRecent, tokenBudget, tokens);
  }

  /** How many conversation messages come before position `j`. */
  function Place(messages: seq<Message>, j: nat): nat
    requires j <= |messages|
  {
    |Conversation(messages[..j])|
  }

  lemma PlaceHolds(messages: seq<Message>, j: nat)
    requires j < |messages| && !messages[j].IsInstruction()
    ensures Place(messages, j) < |Conversation(messages)| && Conversation(messages)[Place(messages, j)] == messages[j]
    ensures j == Place(messages, j) + |Instructions(messages)| - |Instructions(messages[j..])|
  {
    assert messages == messages[..j] + messages[j..];
    ConversationConcat(messages[..j], messages[j..]);
    InstructionsConcat(messages[..j], messages[j..]);
    SplitWeight(messages[..j]);
    assert Conversation(messages[j..])[0] == messages[j];
  }

  lemma {:induction false} PlaceTaken(messages: seq<Message>, place: nat) returns (j: nat)
    requires place < |Conversation(messages)|
    ensures j < |messages| && !messages[j].IsInstruction() && Place(messages, j) == place
  {
    var n := |messages| - 1;
    var front, last := messages[..n], [messages[n]];
    assert messages == front + last;
    ConversationConcat(front, last);
    assert Conversation(last) == if messages[n].IsInstruction() then [] else last;
    if place < |Conversation(front)| {
      j := PlaceTaken(front, place);
      assert front[..j] == messages[..j];
    } else {
      j := n;
    }
  }

  /** A large block stands once in the conversation of a referenced list: where it stood first. */
  lemma BlockStandsOnce(input: seq<Message>, j: nat, i: nat)
    requires j < |input| <= USIZE_LIMIT && i < |input|
    requires IsBlock(input[j]) && FirstBlock(input, input[j].Text()) == j
    requires !input[i].IsInstruction() && Referenced(input)[i].content == input[j].content
    ensures i == j && Referenced(input)[j] == input[j]
  {
    ReferencedPoint(input, |input|, i);
    ReferencedPoint(input, |input|, j);
    FirstBlockIsFirst(input, input[j].Text());
    if IsRepeatedBlock(input, i) {
      MarkerIsSmall(FirstBlock(input, input[i].Text()) + 1);
    }
  }

  /** Which message of the final list a position holds. */
  lemma TruncatedAt(messages: seq<Message>, threshold: nat, keepRecent: nat, tokenBudget: Option<nat>, tokens: nat, k: nat)
    requires TruncationFires(messages, threshold, keepRecent, tokenBudget, tokens)
    ensures var out, front := Truncated(messages, threshold, keepRecent, tokenBudget, tokens), |Instructions(messages)|;
            && |out| == front + 1 + keepRecent
            && (k < |out| ==>
                  out[k] == if k < front then Instructions(messages)[k]
                            else if k == front then Message(System, Some(TRUNCATION_MARKER))
                            else Conversation(messages)[|Conversation(messages)| - keepRecent + (k - front - 1)])
  {
  }

  /** A conversation message keeps its number through truncation exactly when it is kept and as many
      messages before it are dropped as the marker and the instructions after it come to. */
  lemma NumberKept(messages: seq<Message>, j: nat, threshold: nat, keepRecent: nat, tokenBudget: Option<nat>, tokens: nat)
    requires TruncationFires(messages, threshold, keepRecent, tokenBudget, tokens)
    requires j < |messages| && !messages[j].IsInstruction()
    ensures var cut, place := |Conversation(messages)| - keepRecent, Place(messages, j);
            var moved := |Instructions(messages)| + 1 + place - cut;
            && (place >= cut ==> moved < |Truncated(messages, threshold, keepRecent, tokenBudget, tokens)| &&
                                 Truncated(messages, threshold, keepRecent, tokenBudget, tokens)[moved] == messages[j])
            && (moved == j <==> cut == 1 + |Instructions(messages[j..])|)
  {
    PlaceHolds(messages, j);
    var cut, place := |Conversation(messages)| - keepRecent, Place(messages, j);
    if place >= cut {
      TruncatedAt(messages, threshold, keepRecent, tokenBudget, tokens, |Instructions(messages)| + 1 + place - cut);
    }
  }

  /** An input on which a number does not stay right: a pointer to a block that was dropped leads to the
      truncation marker. */
  lemma TruncationMisleadsPointers(block: Message)
    requires IsBlock(block)
    ensures var out := Truncated(Referenced([block, block]), 1, 1, None, 0);
            && |out| == 2 && out[1].content == Some(BlockMarker(1))
            && RestoredAt(out, 1).content == Some(TRUNCATION_MARKER) != block.content
  {
    var pointer, marker := block.(content := Some(BlockMarker(1))), Message(System, Some(TRUNCATION_MARKER));
    SecondBlockPoints(block);
    TruncatedPair(block, pointer);
    assert Truncated(Referenced([block, block]), 1, 1, None, 0) == [marker, pointer];
    PointerToFirst(marker, pointer);
    MarkerIsNoBlock(block);
  }

  lemma MarkerIsNoBlock(block: Message)
    requires IsBlock(block)
    ensures block.content != Some(TRUNCATION_MARKER)
  {
    assert Utf8Len(TRUNCATION_MARKER) <= 4 * |TRUNCATION_MARKER| < LARGE_BLOCK_CHARS;
  }

  lemma SecondBlockPoints(block: Message)
    requires IsBlock(block)
    ensures Referenced([block, block]) == [block, block.(content := Some(BlockMarker(1)))]
  {
    FirstBlockIsFirst([block, block], block.Text());
    ReferentIsIntact([block, block], 1);
  }

  lemma TruncatedPair(first: Message, second: Message)
    requires !first.IsInstruction() && !second.IsInstruction()
    ensures Truncated([first, second], 1, 1, None, 0) == [Message(System, Some(TRUNCATION_MARKER)), second]
  {
    OnlyConversation([first, second]);
    assert [first, second][1..] == [second];
  }

  lemma PointerToFirst(first: Message, pointer: Message)
    requires !pointer.IsInstruction() && pointer.content == Some(BlockMarker(1))
    ensures RestoredAt([first, pointer], 1).content == first.content
  {
    MarkerNumberOfMarker(1);
  }

  // ---------------------------------------------------------------------------------------
  // The size of the whole pipeline
  // ---------------------------------------------------------------------------------------

  lemma {:induction false} DedupeLighter(messages: seq<Message>, seen: seq<string>)
    ensures Weight(DedupedSystem(messages, seen)) <= Weight(messages)
    ensures forall m :: m in DedupedSystem(messages, seen) ==> m in messages
  {
    if messages != [] {
      var m := messages[0];
      var out, rest := DedupedSystem(messages, seen), DedupedSystem(messages[1..], SeenAfter(m, seen));
      DedupeLighter(messages[1..], SeenAfter(m, seen));
      if IsRepeat(m, seen) {
        assert out == rest;
      } else {
        assert out == [m] + rest && out[1..] == rest;
      }
    }
  }

  /** No repeated block is shorter than the marker that stands in for it. */
  predicate MarkersFit(messages: seq<Message>) {
    forall i :: 0 <= i < |messages| && IsRepeatedBlock(messages, i) ==>
      |messages[i].Text()| >= |BlockMarker(FirstBlock(messages, messages[i].Text()) + 1)|
  }

  /** Referencing lengthens no message exactly when the markers fit. */
  lemma ReferencingNoLonger(messages: seq<Message>)
    ensures NoLonger(Referenced(messages), messages) <==> MarkersFit(messages)
  {
    forall i | 0 <= i < |messages|
      ensures |Referenced(messages)[i].Text()| <= |messages[i].Text()| <==>
              (IsRepeatedBlock(messages, i) ==>
                 |messages[i].Text()| >= |BlockMarker(FirstBlock(messages, messages[i].Text()) + 1)|)
    {
      ReferencedPoint(messages, |messages|, i);
    }
  }

  /** The block threshold counts bytes. With at most three of them a character, every marker fits. */
  lemma NarrowMarkersFit(messages: seq<Message>)
    requires |messages| <= USIZE_LIMIT && AllNarrow(messages)
    ensures MarkersFit(messages)
  {
    forall i | 0 <= i < |messages| && IsRepeatedBlock(messages, i)
      ensures |messages[i].Text()| >= |BlockMarker(FirstBlock(messages, messages[i].Text()) + 1)|
    {
      NarrowLength(messages[i].Text());
      MarkerIsSmall(FirstBlock(messages, messages[i].Text()) + 1);
    }
  }

  lemma TrimmingNoLonger(messages: seq<Message>, staleAge: nat, keepEdge: nat)
    ensures NoLonger(Trimmed(messages, staleAge, keepEdge), messages)
  {
    forall i | 0 <= i < |messages|
      ensures |Trimmed(messages, staleAge, keepEdge)[i].Text()| <= |messages[i].Text()|
    {
      TrimmedPoint(messages, |messages|, i, staleAge, keepEdge);
      if IsStaleResult(messages, i, staleAge, keepEdge) {
        ElidedIsShorter(messages[i].Text(), keepEdge);
      }
    }
  }

  lemma CollapsingNoLonger(messages: seq<Message>)
    ensures NoLonger(CollapsedAll(messages), messages)
  {
    forall i | 0 <= i < |messages|
      ensures |CollapsedAll(messages)[i].Text()| <= |messages[i].Text()|
    {
      CollapsedPoint(messages, |messages|, i);
      WhitespaceLaws.CollapseNeverGrows(messages[i].Text());
    }
  }

  /** What block referencing is given. */
  function Deduped(messages: seq<Message>, config: CompressorConfig): seq<Message> {
    if config.dedupeSystem then DedupedSystem(messages, []) else messages
  }

  /** Block referencing, when it is on, lengthens nothing. */
  predicate ReferencesFit(messages: seq<Message>, config: CompressorConfig) {
    config.referenceDuplicateBlocks ==> MarkersFit(Deduped(messages, config))
  }

  /** Text within the basic plane never makes referencing lengthen anything. */
  lemma NarrowReferencesFit(messages: seq<Message>, config: CompressorConfig)
    requires |messages| <= USIZE_LIMIT && AllNarrow(messages)
    ensures ReferencesFit(messages, config)
  {
    var deduped := Deduped(messages, config);
    DedupeLighter(messages, []);
    forall i | 0 <= i < |deduped|
      ensures IsNarrow(deduped[i].Text())
    {
      assert deduped[i] in messages;
    }
    NarrowMarkersFit(deduped);
  }

  lemma RewritingLighter(messages: seq<Message>, config: CompressorConfig)
    requires ReferencesFit(messages, config)
    ensures |Rewritten(messages, config)| <= |messages| && Weight(Rewritten(messages, config)) <= Weight(messages)
  {
    var deduped := Deduped(messages, config);
    DedupeLighter(messages, []);
    var referenced := if config.referenceDuplicateBlocks then Referenced(deduped) else deduped;
    if config.referenceDuplicateBlocks {
      ReferencingNoLonger(deduped);
      NoLongerWeight(referenced, deduped);
    }
    TrimmingNoLonger(referenced, STALE_TOOL_RESULT_AGE, TOOL_RESULT_KEEP_EDGE);
    NoLongerWeight(Trimmed(referenced, STALE_TOOL_RESULT_AGE, TOOL_RESULT_KEEP_EDGE), referenced);
    var trimmed := if config.trimStaleToolResults
                   then Trimmed(referenced, STALE_TOOL_RESULT_AGE, TOOL_RESULT_KEEP_EDGE) else referenced;
    CollapsingNoLonger(trimmed);
    NoLongerWeight(CollapsedAll(trimmed), trimmed);
  }

  lemma {:induction false} SplitWeight(messages: seq<Message>)
    ensures Weight(messages) == Weight(Instructions(messages)) + Weight(Conversation(messages))
    ensures |messages| == |Instructions(messages)| + |Conversation(messages)|
  {
    if messages != [] {
      SplitWeight(messages[1..]);
      WeightConcat(if messages[0].IsInstruction() then [messages[0]] else [], Instructions(messages[1..]));
      WeightConcat(if messages[0].IsInstruction() then [] else [messages[0]], Conversation(messages[1..]));
    }
  }

  /** What truncation drops. */
  function Dropped(messages: seq<Message>, keepRecent: nat): seq<Message>
    requires keepRecent <= |Conversation(messages)|
  {
    Conversation(messages)[..|Conversation(messages)| - keepRecent]
  }

  lemma TruncationWeight(messages: seq<Message>, threshold: nat, keepRecent: nat, tokenBudget: Option<nat>, tokens: nat)
    requires TruncationFires(messages, threshold, keepRecent, tokenBudget, tokens)
    ensures var out, dropped := Truncated(messages, threshold, keepRecent, tokenBudget, tokens), Dropped(messages, keepRecent);
            && |out| == |messages| - |dropped| + 1 && Weight(dropped) >= |dropped| >= 1
            && Weight(out) == Weight(messages) - Weight(dropped) + |TRUNCATION_MARKER| + 1
  {
    var conversation, dropped := Conversation(messages), Dropped(messages, keepRecent);
    var kept, marker := conversation[|dropped|..], Message(System, Some(TRUNCATION_MARKER));
    SplitWeight(messages);
    WeightConcat(dropped, kept);
    assert conversation == dropped + kept;
    WeightConcat(Instructions(messages), [marker]);
    WeightConcat(Instructions(messages) + [marker], kept);
    WeightAtLeastCount(dropped);
    assert Weight([marker]) == |TRUNCATION_MARKER| + 1;
  }

  lemma {:induction false} WeightAtLeastCount(messages: seq<Message>)
    ensures Weight(messages) >= |messages|
  {
    if messages != [] {
      WeightAtLeastCount(messages[1..]);
    }
  }

  /** Truncation does not raise the estimate exactly when what it drops makes up for its marker: in
      characters, taken in whole tokens, and in the framing of each message. */
  lemma TruncationPays(messages: seq<Message>, tools: seq<string>, threshold: nat, keepRecent: nat,
                       tokenBudget: Option<nat>, tokens: nat)
    requires TruncationFires(messages, threshold, keepRecent, tokenBudget, tokens)
    ensures var dropped, size := Dropped(messages, keepRecent), |AllText(messages)|;
            EstimatedTokens(Truncated(messages, threshold, keepRecent, tokenBudget, tokens), tools) <=
            EstimatedTokens(messages, tools) <==>
            (size + |TRUNCATION_MARKER| + 1 - Weight(dropped)) / 4 + 4 <= size / 4 + 4 * |dropped|
  {
    TruncationWeight(messages, threshold, keepRecent, tokenBudget, tokens);
    AllTextLength(messages);
    AllTextLength(Truncated(messages, threshold, keepRecent, tokenBudget, tokens));
  }

  predicate Truncates(messages: seq<Message>, tools: seq<string>, config: CompressorConfig) {
    config.truncateHistory &&
    TruncationFires(Rewritten(messages, config), config.truncateThreshold, config.keepRecent,
                    config.tokenBudget, EstimatedTokens(messages, tools))
  }

  /** Compression never raises the token estimate, unless history was truncated, and then by no more
      than its marker costs: as long as no block reference is longer than its block, which text within
      the basic plane never makes it. */
  lemma CompressionBound(messages: seq<Message>, tools: seq<string>, config: CompressorConfig)
    requires ReferencesFit(messages, config)
    ensures EstimatedTokens(Compressed(messages, tools, config), tools) <=
            EstimatedTokens(messages, tools) +
            if Truncates(messages, tools, config) then (|TRUNCATION_MARKER| + 3) / 4 else 0
  {
    var rewritten := Rewritten(messages, config);
    RewritingLighter(messages, config);
    if Truncates(messages, tools, config) {
      TruncationWeight(rewritten, config.truncateThreshold, config.keepRecent, config.tokenBudget,
                       EstimatedTokens(messages, tools));
      EstimateFollowsWeight(Compressed(messages, tools, config), messages, tools, |TRUNCATION_MARKER|);
    } else {
      EstimateFollowsWeight(rewritten, messages, tools, 0);
    }
  }

  /** The report accounts for every message: what is gone was a repeated instruction or truncated
      history, and what is new is the one marker that truncation leaves. */
  lemma ReportAccountsForMessages(messages: seq<Message>, tools: seq<string>, config: CompressorConfig)
    ensures var report := Report(messages, tools, config);
            |Compressed(messages, tools, config)| ==
            |messages| - report.duplicateSystemMessagesRemoved - report.messagesTruncated +
            if report.messagesTruncated > 0 then 1 else 0
  {
    SplitWeight(Rewritten(messages, config));
  }

  /** An input on which truncation grows: cutting one empty message off two costs more than it saves. */
  lemma TruncationCanGrow(tools: seq<string>)
    ensures var empty := Message(User, Some(""));
            EstimatedTokens(Truncated([empty, empty], 1, 1, None, 0), tools) >
            EstimatedTokens([empty, empty], tools)
  {
    var empty := Message(User, Some(""));
    var marker := Message(System, Some(TRUNCATION_MARKER));
    var messages := [empty, empty];
    OnlyConversation(messages);
    assert Truncated(messages, 1, 1, None, 0) == [marker, empty];
    assert [marker, empty][1..] == [empty] && messages[1..] == [empty];
    assert Weight([empty]) == 1;
    AllTextLength(messages);
    AllTextLength([marker, empty]);
  }

  function Repeated(c: char, n: nat): (s: string)
    ensures |s| == n
  {
    if n == 0 then "" else [c] + Repeated(c, n - 1)
  }

  lemma {:induction false} RepeatedWide(c: char, n: nat)
    requires c as int >= 0x1_0000
    ensures Utf8Len(Repeated(c, n)) == 4 * n
  {
    if n > 0 {
      RepeatedWide(c, n - 1);
    }
  }

  /** An input on which referencing grows: a hundred four-byte characters make a block of a hundred
      characters, and its marker has more. */
  lemma ReferencingCanGrow(c: char, tools: seq<string>)
    requires c as int >= 0x1_0000
    ensures var wide := Message(User, Some(Repeated(c, 100)));
            EstimatedTokens(Referenced([wide, wide]), tools) > EstimatedTokens([wide, wide], tools)
  {
    var wide := Message(User, Some(Repeated(c, 100)));
    RepeatedWide(c, 100);
    SecondBlockPoints(wide);
    var pointer := wide.(content := Some(BlockMarker(1)));
    PairLength(wide, wide);
    PairLength(wide, pointer);
    assert |BlockMarker(1)| == 108 by {
      assert Dec(1) == [Digit(1)];
    }
  }

  lemma PairLength(a: Message, b: Message)
    ensures |AllText([a, b])| == |a.Text()| + 1 + |b.Text()|
  {
    AllTextLength([a, b]);
    assert [a, b][1..] == [b] && [b][1..] == [];
    assert Weight([b]) == |b.Text()| + 1;
  }
}
