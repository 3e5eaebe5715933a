/** Chat messages and the token estimate the gateway makes of a request. */
module Messages {
  import opened Wrappers
  import Whitespace

  datatype Role = System | User | Assistant | Tool | Developer

  /** A message with plain text content, or with none. */
  datatype Message = Message(role: Role, content: Option<string>) {
    function Text(): string {
      if content.Some? then content.value else ""
    }

    predicate IsInstruction() { role.System? || role.Developer? }
  }

  function Texts(messages: seq<Message>): (texts: seq<string>)
    ensures |texts| == |messages|
  {
    if messages == [] then [] else [messages[0].Text()] + Texts(messages[1..])
  }

  function AllText(messages: seq<Message>): string { Whitespace.JoinLines(Texts(messages)) }

  function QuarterLengths(tools: seq<string>): nat {
    if tools == [] then 0 else |tools[0]| / 4 + QuarterLengths(tools[1..])
  }

  /** A quarter of the characters, plus four tokens of framing a message, plus the tools. */
  function EstimatedTokens(messages: seq<Message>, tools: seq<string>): nat {
    |AllText(messages)| / 4 + |messages| * 4 + QuarterLengths(tools)
  }

  /** Bytes of one character in UTF-8. */
  function Utf8Width(c: char): nat {
    var n := c as int;
    if n < 0x80 then 1 else if n < 0x800 then 2 else if n < 0x1_0000 then 3 else 4
  }

  /** `str::len`: bytes, not characters. */
  function Utf8Len(s: string): (n: nat)
    ensures |s| <= n <= 4 * |s|
  {
    if s == [] then 0 else Utf8Width(s[0]) + Utf8Len(s[1..])
  }

  predicate IsAscii(s: string) { forall i :: 0 <= i < |s| ==> s[i] as int < 0x80 }

  lemma {:induction false} Utf8LenConcat(a: string, b: string)
    ensures Utf8Len(a + b) == Utf8Len(a) + Utf8Len(b)
  {
    if a == [] {
      assert a + b == b;
    } else {
      Utf8LenConcat(a[1..], b);
      assert (a + b)[1..] == a[1..] + b;
    }
  }

  /** No character beyond the basic plane. */
  predicate IsNarrow(s: string) { forall i :: 0 <= i < |s| ==> s[i] as int < 0x1_0000 }

  predicate AllNarrow(messages: seq<Message>) {
    forall i :: 0 <= i < |messages| ==> IsNarrow(messages[i].Text())
  }

  lemma {:induction false} NarrowLength(s: string)
    requires IsNarrow(s)
    ensures Utf8Len(s) <= 3 * |s|
  {
    if s != [] {
      NarrowLength(s[1..]);
    }
  }

  lemma {:induction false} AsciiLength(s: string)
    requires IsAscii(s)
    ensures Utf8Len(s) == |s|
  {
    if s != [] {
      AsciiLength(s[1..]);
    }
  }

  /** Characters plus one separator a message: one more than `AllText`, when there is a message. */
  function Weight(messages: seq<Message>): nat {
    if messages == [] then 0 else |messages[0].Text()| + 1 + Weight(messages[1..])
  }

  lemma {:induction false} AllTextLength(messages: seq<Message>)
    ensures |AllText(messages)| == if messages == [] then 0 else Weight(messages) - 1
  {
    if |messages| > 1 {
      AllTextLength(messages[1..]);
    }
  }

  lemma {:induction false} WeightConcat(a: seq<Message>, b: seq<Message>)
    ensures Weight(a + b) == Weight(a) + Weight(b)
  {
    if a == [] {
      assert a + b == b;
    } else {
      WeightConcat(a[1..], b);
      assert (a + b)[1..] == a[1..] + b;
    }
  }

  /** Message by message, no text of `a` is longer than the one of `b` in its place. */
  predicate NoLonger(a: seq<Message>, b: seq<Message>) {
    |a| == |b| && forall i :: 0 <= i < |a| ==> |a[i].Text()| <= |b[i].Text()|
  }

  lemma {:induction false} NoLongerWeight(a: seq<Message>, b: seq<Message>)
    requires NoLonger(a, b)
    ensures Weight(a) <= Weight(b)
  {
    if a != [] {
      assert forall i :: 0 <= i < |a[1..]| ==> a[1..][i] == a[i + 1] && b[1..][i] == b[i + 1];
      NoLongerWeight(a[1..], b[1..]);
    }
  }

  /** A lighter list of no more messages is estimated at no more tokens; `slack` extra characters
      cost at most a quarter of them, rounded up. */
  lemma EstimateFollowsWeight(a: seq<Message>, b: seq<Message>, tools: seq<string>, slack: nat)
    requires |a| <= |b| && Weight(a) <= Weight(b) + slack
    ensures EstimatedTokens(a, tools) <= EstimatedTokens(b, tools) + (slack + 3) / 4
  {
    AllTextLength(a);
    AllTextLength(b);
  }
}
