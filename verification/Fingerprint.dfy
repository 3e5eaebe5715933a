/** The byte string a request is fingerprinted by, the cache keys made from its digest, and which
    requests may be cached at all. */
module Fingerprint {
  import opened Decimal
  import opened Sequences
  import opened Wrappers
  import Messages

  type byte = b: int | 0 <= b < 256
  type bytes = seq<byte>

  /** JSON text: control characters inside it are escaped. */
  type Json = j: bytes | forall i :: 0 <= i < |j| ==> j[i] >= 0x20

  /** Sixteen bytes naming an organisation. */
  type OrgId = o: bytes | |o| == 16 witness seq(16, i => 0)

  const NUL: byte := 0x00
  const RECORD: byte := 0x1e
  const UNIT: byte := 0x1f

  type Role = Messages.Role

  /** What is hashed of a message: its role, and its text in UTF-8. */
  datatype Turn = Turn(role: Role, text: bytes)

  /** A typed part of a message, and its text field when it has one. */
  datatype Part = Part(json: Json, text: Option<bytes>)

  datatype Content = Text(text: bytes) | Parts(parts: seq<Part>)

  const NEWLINE: byte := 0x0a

  /** The texts of those parts that have one. */
  function PartTexts(parts: seq<Part>): seq<bytes> {
    if parts == [] then []
    else (if parts[0].text.Some? then [parts[0].text.value] else []) + PartTexts(parts[1..])
  }

  function JoinLines(texts: seq<bytes>): bytes {
    if texts == [] then [] else if |texts| == 1 then texts[0] else texts[0] + [NEWLINE] + JoinLines(texts[1..])
  }

  function AsText(content: Option<Content>): bytes {
    match content
    case None => []
    case Some(Text(text)) => text
    case Some(Parts(parts)) => JoinLines(PartTexts(parts))
  }

  datatype Message = Message(role: Role, content: Option<Content>, name: Option<bytes>, toolCalls: Option<Json>,
                             toolCallId: Option<bytes>) {
    function AsTurn(): Turn { Turn(role, AsText(content)) }
  }

  /** A message that says a turn and nothing else. */
  function Saying(turn: Turn): (message: Message)
    ensures message.AsTurn() == turn
  {
    Message(turn.role, Some(Text(turn.text)), None, None, None)
  }

  function Turns(messages: seq<Message>): (turns: seq<Turn>)
    ensures |turns| == |messages| && forall i :: 0 <= i < |turns| ==> turns[i] == messages[i].AsTurn()
  {
    if messages == [] then [] else [messages[0].AsTurn()] + Turns(messages[1..])
  }

  datatype Field = Field(key: bytes, value: Json)

  /** A request; `extra` is in key order, as a sorted map gives it. */
  datatype Request = Request(
    model: bytes,
    messages: seq<Message>,
    temperature: Option<real>,
    topP: Option<real>,
    maxTokens: Option<nat>,
    responseFormat: Option<Json>,
    stop: Option<Json>,
    extra: seq<Field>,
    stream: bool,
    tools: seq<Json>,
    toolChoice: Option<Json>,
    user: Option<bytes>)

  function Ascii(s: string): (r: bytes)
    requires forall i :: 0 <= i < |s| ==> s[i] as int < 0x80
    ensures |r| == |s|
  {
    if s == [] then [] else [s[0] as int] + Ascii(s[1..])
  }

  function RoleName(role: Role): (r: string)
    ensures r != "" && forall i :: 0 <= i < |r| ==> 0x20 <= r[i] as int < 0x80
  {
    match role
    case System => "system"
    case User => "user"
    case Assistant => "assistant"
    case Tool => "tool"
    case Developer => "developer"
  }

  function RoleText(role: Role): (r: bytes)
    ensures r != []
  {
    Ascii(RoleName(role))
  }

  function HalfToEven(v: real): int {
    var whole := v.Floor;
    if v - whole as real < 0.5 || (v - whole as real == 0.5 && whole % 2 == 0) then whole else whole + 1
  }

  /** A number to six decimals: its sign, and its size in millionths. */
  function SixPlaces(v: real): (bool, nat) {
    var size := (if v < 0.0 then -v else v) * 1000000.0;
    assert size.Floor >= 0;
    (v < 0.0, HalfToEven(size))
  }

  function FormatOption(v: Option<real>): string {
    match v
    case None => ""
    case Some(x) => FixedSix(SixPlaces(x).0, SixPlaces(x).1)
  }

  function NumberText(v: Option<real>): bytes {
    Ascii(FormatOption(v))
  }

  function TokensText(v: Option<nat>): bytes {
    match v
    case None => []
    case Some(n) => Ascii(Dec(n))
  }

  // What stands between the parts: a name between two zero bytes.
  const HEAD := Ascii("aegis-fingerprint-v1") + [NUL]
  const MODEL := [NUL] + Ascii("model") + [NUL]
  const MESSAGES := [NUL] + Ascii("messages") + [NUL]
  const PARAMS := [NUL] + Ascii("params") + [NUL]
  const FORMAT := [NUL] + Ascii("format") + [NUL]
  const STOP := [NUL] + Ascii("stop") + [NUL]
  const EXTRA := [NUL] + Ascii("extra") + [NUL]

  function EncodeTurn(turn: Turn): bytes { RoleText(turn.role) + [UNIT] + turn.text + [RECORD] }

  function EncodeField(field: Field): bytes { field.key + [UNIT] + field.value + [RECORD] }

  function TurnPieces(turns: seq<Turn>): (r: seq<bytes>)
    ensures |r| == |turns| && forall i :: 0 <= i < |turns| ==> r[i] == EncodeTurn(turns[i])
  {
    if turns == [] then [] else [EncodeTurn(turns[0])] + TurnPieces(turns[1..])
  }

  function FieldPieces(fields: seq<Field>): (r: seq<bytes>)
    ensures |r| == |fields| && forall i :: 0 <= i < |fields| ==> r[i] == EncodeField(fields[i])
  {
    if fields == [] then [] else [EncodeField(fields[0])] + FieldPieces(fields[1..])
  }

  function EncodeTurns(turns: seq<Turn>): bytes { Flatten(TurnPieces(turns)) }

  function EncodeFields(fields: seq<Field>): bytes { Flatten(FieldPieces(fields)) }

  function EncodeSection(tag: bytes, value: Option<Json>): bytes {
    match value
    case None => []
    case Some(json) => tag + json
  }

  function EncodeExtra(fields: seq<Field>): bytes {
    if fields == [] then [] else EXTRA + EncodeFields(fields)
  }

  /** The bytes fed to the digest. */
  function Encode(request: Request, org: OrgId): bytes {
    HEAD + org + MODEL + request.model + MESSAGES + EncodeTurns(Turns(request.messages)) + PARAMS +
    NumberText(request.temperature) + [UNIT] + NumberText(request.topP) + [UNIT] + TokensText(request.maxTokens) +
    EncodeSection(FORMAT, request.responseFormat) + EncodeSection(STOP, request.stop) + EncodeExtra(request.extra)
  }

  /** A hash that takes its input piece by piece; its digest is a function of all that it was fed. */
  class Hasher {
    var fed: bytes

    constructor ()
      ensures fed == []
    {
      fed := [];
    }

    method Update(data: bytes)
      modifies this
      ensures fed == old(fed) + data
    {
      fed := fed + data;
    }

    /** One turn, as its four pieces. */
    method UpdateTurn(turn: Turn)
      modifies this
      ensures fed == old(fed) + EncodeTurn(turn)
    {
      Update(RoleText(turn.role));
      Update([UNIT]);
      Update(turn.text);
      Update([RECORD]);
    }

    method UpdateField(field: Field)
      modifies this
      ensures fed == old(fed) + EncodeField(field)
    {
      Update(field.key);
      Update([UNIT]);
      Update(field.value);
      Update([RECORD]);
    }
  }

  method FeedMessages(hasher: Hasher, messages: seq<Message>)
    modifies hasher
    ensures hasher.fed == old(hasher.fed) + EncodeTurns(Turns(messages))
  {
    ghost var front, pieces := hasher.fed, TurnPieces(Turns(messages));
    for i := 0 to |messages|
      invariant hasher.fed == front + Flatten(pieces[..i])
    {
      hasher.UpdateTurn(messages[i].AsTurn());
      FlattenStep(front, pieces, i);
    }
    assert pieces[..|messages|] == pieces;
  }

  method FeedExtra(hasher: Hasher, fields: seq<Field>)
    modifies hasher
    ensures hasher.fed == old(hasher.fed) + EncodeExtra(fields)
  {
    if fields != [] {
      ghost var front, pieces := hasher.fed + EXTRA, FieldPieces(fields);
      hasher.Update(EXTRA);
      for i := 0 to |fields|
        invariant hasher.fed == front + Flatten(pieces[..i])
      {
        hasher.UpdateField(fields[i]);
        FlattenStep(front, pieces, i);
      }
      assert pieces[..|fields|] == pieces;
    }
  }

  method FeedSection(hasher: Hasher, tag: bytes, value: Option<Json>)
    modifies hasher
    ensures hasher.fed == old(hasher.fed) + EncodeSection(tag, value)
  {
    if value.Some? {
      hasher.Update(tag);
      hasher.Update(value.value);
    }
  }

  /** The fingerprint of a request for one organisation, for a given digest function. */
  method Compute(request: Request, org: OrgId, digest: bytes -> string) returns (fingerprint: string)
    ensures fingerprint == digest(Encode(request, org))
  {
    var hasher := new Hasher();
    hasher.Update(HEAD);
    assert hasher.fed == HEAD;
    hasher.Update(org);
    hasher.Update(MODEL);
    hasher.Update(request.model);
    hasher.Update(MESSAGES);
    FeedMessages(hasher, request.messages);
    hasher.Update(PARAMS);
    hasher.Update(NumberText(request.temperature));
    hasher.Update([UNIT]);
    hasher.Update(NumberText(request.topP));
    hasher.Update([UNIT]);
    hasher.Update(TokensText(request.maxTokens));
    FeedSection(hasher, FORMAT, request.responseFormat);
    FeedSection(hasher, STOP, request.stop);
    FeedExtra(hasher, request.extra);
    fingerprint := digest(hasher.fed);
  }
}
