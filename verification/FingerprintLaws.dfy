/** The bytes a fingerprint is made from can be read back in one way only, as long as the model, the
    texts and the extra keys each avoid the one separator byte that ends them. */
module FingerprintLaws {
  import opened Decimal
  import opened Sequences
  import opened Wrappers
  import opened Fingerprint

  predicate Plain(s: bytes) { NUL !in s && RECORD !in s && UNIT !in s }

  /** Each part avoids the byte that ends it. */
  predicate SeparatorFree(request: Request) {
    ModelEnds(request) && TextsEnd(Turns(request.messages)) && KeysEnd(request.extra)
  }

  predicate ModelEnds(request: Request) { NUL !in request.model }

  predicate TextsEnd(turns: seq<Turn>) { forall turn :: turn in turns ==> RECORD !in turn.text }

  predicate KeysEnd(fields: seq<Field>) { forall field :: field in fields ==> UNIT !in field.key }

  lemma {:induction false} TextsSnoc(parts: seq<Part>, part: Part)
    ensures PartTexts(parts + [part]) ==
            PartTexts(parts) + if part.text.Some? then [part.text.value] else []
  {
    if parts == [] {
      assert parts + [part] == [part] && [part][1..] == [];
    } else {
      TextsSnoc(parts[1..], part);
      assert (parts + [part])[1..] == parts[1..] + [part];
    }
  }

  lemma {:induction false} JoinedSnoc(texts: seq<bytes>, text: bytes)
    ensures JoinLines(texts + [text]) == if texts == [] then text else JoinLines(texts) + [NEWLINE] + text
  {
    if |texts| > 1 {
      JoinedSnoc(texts[1..], text);
      assert (texts + [text])[1..] == texts[1..] + [text];
      Assoc(texts[0] + [NEWLINE], JoinLines(texts[1..]), [NEWLINE] + text);
      Assoc(JoinLines(texts[1..]), [NEWLINE], text);
      Assoc(JoinLines(texts), [NEWLINE], text);
    } else if |texts| == 1 {
      assert (texts + [text])[1..] == [text];
    }
  }

  /** The text of a message: what is said, or the texts of its parts on a line each; a part without one adds nothing. */
  lemma PartsAreJoined(parts: seq<Part>, part: Part, text: bytes)
    ensures AsText(None) == [] && AsText(Some(Text(text))) == text && AsText(Some(Parts([]))) == []
    ensures AsText(Some(Parts(parts + [part]))) ==
            if part.text.None? then AsText(Some(Parts(parts)))
            else if forall p :: p in parts ==> p.text.None? then part.text.value
            else AsText(Some(Parts(parts))) + [10] + part.text.value
  {
    TextsSnoc(parts, part);
    NoTexts(parts);
    assert PartTexts(parts) + [] == PartTexts(parts);
    if part.text.Some? {
      JoinedSnoc(PartTexts(parts), part.text.value);
    }
  }

  lemma {:induction false} NoTexts(parts: seq<Part>)
    ensures PartTexts(parts) == [] <==> forall p :: p in parts ==> p.text.None?
  {
    if parts != [] {
      NoTexts(parts[1..]);
      assert forall p :: p in parts <==> p == parts[0] || p in parts[1..];
    }
  }

  /** What two requests must agree on to be the same request. */
  datatype Identity = Identity(org: OrgId, model: bytes, turns: seq<Turn>, temperature: Option<(bool, nat)>,
                               topP: Option<(bool, nat)>, maxTokens: Option<nat>, responseFormat: Option<Json>,
                               stop: Option<Json>, extra: seq<Field>)

  function Six(v: Option<real>): Option<(bool, nat)> {
    match v
    case None => None
    case Some(x) => Some(SixPlaces(x))
  }

  function IdentityOf(request: Request, org: OrgId): Identity {
    Identity(org, request.model, Turns(request.messages), Six(request.temperature), Six(request.topP), request.maxTokens,
             request.responseFormat, request.stop, request.extra)
  }

  // ---------------------------------------------------------------------------------------
  // Numbers and roles
  // ---------------------------------------------------------------------------------------

  lemma {:induction false} AsciiInjective(a: string, b: string)
    requires (forall i :: 0 <= i < |a| ==> a[i] as int < 0x80) && (forall i :: 0 <= i < |b| ==> b[i] as int < 0x80)
    requires Ascii(a) == Ascii(b)
    ensures a == b
  {
    if a != [] {
      assert Ascii(a)[1..] == Ascii(a[1..]) && Ascii(b)[1..] == Ascii(b[1..]);
      AsciiInjective(a[1..], b[1..]);
      assert a == [a[0]] + a[1..] && b == [b[0]] + b[1..];
    }
  }

  lemma {:induction false} AsciiPoint(s: string, i: nat)
    requires (forall k :: 0 <= k < |s| ==> s[k] as int < 0x80) && i < |s|
    ensures Ascii(s)[i] == s[i] as int
  {
    if i > 0 {
      AsciiPoint(s[1..], i - 1);
    }
  }

  /** Texts of printable characters turn into plain bytes. */
  lemma AsciiIsPlain(s: string)
    requires forall i :: 0 <= i < |s| ==> 0x20 <= s[i] as int < 0x80
    ensures Plain(Ascii(s))
  {
    forall i | 0 <= i < |s|
      ensures Ascii(s)[i] >= 0x20
    {
      AsciiPoint(s, i);
    }
  }

  lemma NumberTextPlain(v: Option<real>)
    ensures Plain(NumberText(v))
  {
    AsciiIsPlain(FormatOption(v));
  }

  lemma NumberTextUnique(a: Option<real>, b: Option<real>)
    requires NumberText(a) == NumberText(b)
    ensures Six(a) == Six(b)
  {
    AsciiInjective(FormatOption(a), FormatOption(b));
    if a.Some? && b.Some? {
      FixedSixInjective(SixPlaces(a.value).0, SixPlaces(a.value).1, SixPlaces(b.value).0, SixPlaces(b.value).1);
    }
  }

  lemma TokensTextUnique(a: Option<nat>, b: Option<nat>)
    requires TokensText(a) == TokensText(b)
    ensures a == b
  {
    if a.Some? && b.Some? {
      AsciiInjective(Dec(a.value), Dec(b.value));
      DecInjective(a.value, b.value);
    }
  }

  lemma TokensTextPlain(v: Option<nat>)
    ensures Plain(TokensText(v))
  {
    if v.Some? {
      AsciiIsPlain(Dec(v.value));
    }
  }

  lemma RoleTextUnique(a: Role, b: Role)
    requires RoleText(a) == RoleText(b)
    ensures a == b
  {
    AsciiInjective(RoleName(a), RoleName(b));
    assert RoleName(a)[0] == RoleName(b)[0];
  }

  // ---------------------------------------------------------------------------------------
  // Lists
  // ---------------------------------------------------------------------------------------

  /** A record of two fields, and what follows it. */
  lemma RecordUnique(a: bytes, b: bytes, x: bytes, a': bytes, b': bytes, x': bytes)
    requires UNIT !in a && UNIT !in a' && RECORD !in b && RECORD !in b'
    requires a + [UNIT] + b + [RECORD] + x == a' + [UNIT] + b' + [RECORD] + x'
    ensures a == a' && b == b' && x == x'
  {
    assert a + [UNIT] + b + [RECORD] + x == a + [UNIT] + (b + [RECORD] + x);
    assert a' + [UNIT] + b' + [RECORD] + x' == a' + [UNIT] + (b' + [RECORD] + x');
    FieldUnique(a, b + [RECORD] + x, a', b' + [RECORD] + x', UNIT);
    FieldUnique(b, x, b', x', RECORD);
  }

  lemma TurnsSplit(turns: seq<Turn>, x: bytes)
    requires turns != []
    ensures EncodeTurns(turns) + x ==
            RoleText(turns[0].role) + [UNIT] + turns[0].text + [RECORD] + (EncodeTurns(turns[1..]) + x)
    ensures EncodeTurns(turns) + x != [] && (EncodeTurns(turns) + x)[0] != NUL
  {
    AsciiIsPlain(RoleName(turns[0].role));
    assert TurnPieces(turns)[1..] == TurnPieces(turns[1..]);
    Assoc(EncodeTurn(turns[0]), EncodeTurns(turns[1..]), x);
    assert (EncodeTurns(turns) + x)[0] == RoleText(turns[0].role)[0];
  }

  lemma {:induction false} TurnsUnique(a: seq<Turn>, x: bytes, b: seq<Turn>, y: bytes)
    requires TextsEnd(a) && TextsEnd(b)
    requires EncodeTurns(a) + ([NUL] + x) == EncodeTurns(b) + ([NUL] + y)
    ensures a == b && x == y
  {
    if a == [] {
      assert EncodeTurns(a) + ([NUL] + x) == [NUL] + x;
      NoTurns(b, y, x);
    } else if b == [] {
      assert EncodeTurns(b) + ([NUL] + y) == [NUL] + y;
      NoTurns(a, x, y);
    } else {
      FirstTurnUnique(a, [NUL] + x, b, [NUL] + y);
      TurnsUnique(a[1..], x, b[1..], y);
      assert a == [a[0]] + a[1..] && b == [b[0]] + b[1..];
    }
  }

  lemma FirstTurnUnique(a: seq<Turn>, x: bytes, b: seq<Turn>, y: bytes)
    requires a != [] && b != [] && RECORD !in a[0].text && RECORD !in b[0].text
    requires EncodeTurns(a) + x == EncodeTurns(b) + y
    ensures a[0] == b[0] && EncodeTurns(a[1..]) + x == EncodeTurns(b[1..]) + y
  {
    TurnsSplit(a, x);
    TurnsSplit(b, y);
    AsciiIsPlain(RoleName(a[0].role));
    AsciiIsPlain(RoleName(b[0].role));
    RecordUnique(RoleText(a[0].role), a[0].text, EncodeTurns(a[1..]) + x,
                 RoleText(b[0].role), b[0].text, EncodeTurns(b[1..]) + y);
    RoleTextUnique(a[0].role, b[0].role);
  }

  lemma NoTurns(turns: seq<Turn>, x: bytes, y: bytes)
    requires EncodeTurns(turns) + ([NUL] + x) == [NUL] + y
    ensures turns == [] && x == y
  {
    if turns != [] {
      TurnsSplit(turns, [NUL] + x);
      assert false;
    }
    assert ([NUL] + x)[1..] == x && ([NUL] + y)[1..] == y;
  }

  lemma FieldsSplit(fields: seq<Field>)
    requires fields != []
    ensures EncodeFields(fields) ==
            fields[0].key + [UNIT] + fields[0].value + [RECORD] + EncodeFields(fields[1..])
  {
    assert FieldPieces(fields)[1..] == FieldPieces(fields[1..]);
  }

  lemma {:induction false} FieldsUnique(a: seq<Field>, b: seq<Field>)
    requires KeysEnd(a) && KeysEnd(b)
    requires EncodeFields(a) == EncodeFields(b)
    ensures a == b
  {
    if a != [] {
      FieldsSplit(a);
    }
    if b != [] {
      FieldsSplit(b);
    }
    if a != [] && b != [] {
      RecordUnique(a[0].key, a[0].value, EncodeFields(a[1..]), b[0].key, b[0].value, EncodeFields(b[1..]));
      assert a[0] == b[0];
      FieldsUnique(a[1..], b[1..]);
      assert a == [a[0]] + a[1..] && b == [b[0]] + b[1..];
    }
  }

  // ---------------------------------------------------------------------------------------
  // The optional sections at the end
  // ---------------------------------------------------------------------------------------

  /** Nothing more, or a zero byte. */
  predicate Ends(x: bytes) { x == [] || x[0] == NUL }

  lemma EndUnique(a: bytes, x: bytes, b: bytes, y: bytes)
    requires NUL !in a && NUL !in b && Ends(x) && Ends(y)
    requires a + x == b + y
    ensures a == b && x == y
  {
    var s := a + x;
    assert s == b + y;
    assert forall i :: 0 <= i < |a| ==> s[i] == a[i];
    assert forall i :: 0 <= i < |b| ==> s[i] == b[i];
    assert |a| < |s| ==> s[|a|] == x[0];
    assert |b| < |s| ==> s[|b|] == y[0];
    assert s[..|a|] == a && s[..|b|] == b && s[|a|..] == x && s[|b|..] == y;
  }

  /** What follows a section with this tag: nothing, or a tag that starts with another letter. */
  predicate Follows(x: bytes, tag: bytes)
    requires |tag| >= 2
  {
    x == [] || (|x| >= 2 && x[0] == NUL && x[1] != tag[1])
  }

  lemma JsonIsPlain(json: Json)
    ensures Plain(json)
  {
  }

  lemma SectionUnique(tag: bytes, v: Option<Json>, x: bytes, w: Option<Json>, y: bytes)
    requires |tag| >= 2 && Follows(x, tag) && Follows(y, tag)
    requires EncodeSection(tag, v) + x == EncodeSection(tag, w) + y
    ensures v == w && x == y
  {
    if v.Some? {
      SectionStart(tag, v.value, x);
    }
    if w.Some? {
      SectionStart(tag, w.value, y);
    }
    assert v.None? ==> EncodeSection(tag, v) + x == x;
    assert w.None? ==> EncodeSection(tag, w) + y == y;
    if v.Some? && w.Some? {
      JsonIsPlain(v.value);
      JsonIsPlain(w.value);
      EndUnique(v.value, x, w.value, y);
    }
  }

  lemma SectionStart(tag: bytes, json: Json, x: bytes)
    requires |tag| >= 2
    ensures var s := EncodeSection(tag, Some(json)) + x;
            |s| >= 2 && s[1] == tag[1] && s[|tag|..] == json + x
  {
  }

  lemma TagStarts()
    ensures |FORMAT| >= 2 && |STOP| >= 2 && |EXTRA| >= 2
    ensures FORMAT[0] == STOP[0] == EXTRA[0] == NUL
    ensures FORMAT[1] != STOP[1] && STOP[1] != EXTRA[1] && EXTRA[1] != FORMAT[1]
  {
    AsciiPoint("format", 0);
    AsciiPoint("stop", 0);
    AsciiPoint("extra", 0);
  }

  function Options(request: Request): bytes {
    EncodeSection(FORMAT, request.responseFormat) +
    (EncodeSection(STOP, request.stop) + EncodeExtra(request.extra))
  }

  lemma OptionsEnd(request: Request)
    ensures |FORMAT| >= 2 && |STOP| >= 2
    ensures Ends(Options(request))
    ensures Follows(EncodeSection(STOP, request.stop) + EncodeExtra(request.extra), FORMAT)
    ensures Follows(EncodeExtra(request.extra), STOP)
  {
    TagStarts();
  }

  lemma OptionsUnique(a: Request, b: Request)
    requires KeysEnd(a.extra) && KeysEnd(b.extra)
    requires Options(a) == Options(b)
    ensures a.responseFormat == b.responseFormat && a.stop == b.stop && a.extra == b.extra
  {
    OptionsEnd(a);
    OptionsEnd(b);
    SectionUnique(FORMAT, a.responseFormat, EncodeSection(STOP, a.stop) + EncodeExtra(a.extra),
                  b.responseFormat, EncodeSection(STOP, b.stop) + EncodeExtra(b.extra));
    SectionUnique(STOP, a.stop, EncodeExtra(a.extra), b.stop, EncodeExtra(b.extra));
    if a.extra != [] && b.extra != [] {
      assert EncodeExtra(a.extra)[|EXTRA|..] == EncodeFields(a.extra);
      assert EncodeExtra(b.extra)[|EXTRA|..] == EncodeFields(b.extra);
      FieldsUnique(a.extra, b.extra);
    }
  }

  // ---------------------------------------------------------------------------------------
  // The whole
  // ---------------------------------------------------------------------------------------

  function Params(request: Request): bytes {
    NumberText(request.temperature) + [UNIT] +
    (NumberText(request.topP) + [UNIT] + (TokensText(request.maxTokens) + Options(request)))
  }

  lemma ParamsUnique(a: Request, b: Request)
    requires KeysEnd(a.extra) && KeysEnd(b.extra)
    requires Params(a) == Params(b)
    ensures Six(a.temperature) == Six(b.temperature) && Six(a.topP) == Six(b.topP) && a.maxTokens == b.maxTokens
    ensures a.responseFormat == b.responseFormat && a.stop == b.stop && a.extra == b.extra
  {
    NumberTextPlain(a.temperature);
    NumberTextPlain(b.temperature);
    FieldUnique(NumberText(a.temperature), NumberText(a.topP) + [UNIT] + (TokensText(a.maxTokens) + Options(a)),
                NumberText(b.temperature), NumberText(b.topP) + [UNIT] + (TokensText(b.maxTokens) + Options(b)), UNIT);
    NumberTextPlain(a.topP);
    NumberTextPlain(b.topP);
    FieldUnique(NumberText(a.topP), TokensText(a.maxTokens) + Options(a),
                NumberText(b.topP), TokensText(b.maxTokens) + Options(b), UNIT);
    TokensTextPlain(a.maxTokens);
    TokensTextPlain(b.maxTokens);
    OptionsEnd(a);
    OptionsEnd(b);
    EndUnique(TokensText(a.maxTokens), Options(a), TokensText(b.maxTokens), Options(b));
    OptionsUnique(a, b);
    NumberTextUnique(a.temperature, b.temperature);
    NumberTextUnique(a.topP, b.topP);
    TokensTextUnique(a.maxTokens, b.maxTokens);
  }

  /** The encoding, grouped from the right; the tags give up the zero byte that ends a field. */
  function Nested(request: Request, org: OrgId): bytes {
    HEAD + (org + (MODEL + (request.model + ([NUL] + (MESSAGES[1..] +
    (EncodeTurns(Turns(request.messages)) + ([NUL] + (PARAMS[1..] + Params(request)))))))))
  }

  /** The last five pieces, regrouped. */
  lemma ParamsRegroup(front: bytes, request: Request)
    ensures front + NumberText(request.temperature) + [UNIT] + NumberText(request.topP) + [UNIT] +
            TokensText(request.maxTokens) + EncodeSection(FORMAT, request.responseFormat) +
            EncodeSection(STOP, request.stop) + EncodeExtra(request.extra) == front + Params(request)
  {
    var t, p, m := NumberText(request.temperature), NumberText(request.topP), TokensText(request.maxTokens);
    var f, s, e := EncodeSection(FORMAT, request.responseFormat), EncodeSection(STOP, request.stop),
                   EncodeExtra(request.extra);
    var base := front + t + [UNIT] + p + [UNIT] + m;
    Assoc(base + f, s, e);
    Assoc(base, f, s + e);
    Assoc(front + t + [UNIT] + p + [UNIT], m, Options(request));
    Assoc(front + t + [UNIT], p + [UNIT], m + Options(request));
    Assoc(front + t + [UNIT], p, [UNIT]);
    Assoc(front, t + [UNIT], p + [UNIT] + (m + Options(request)));
    Assoc(front, t, [UNIT]);
  }

  lemma TagsSplit()
    ensures |MESSAGES| >= 1 && MESSAGES == [NUL] + MESSAGES[1..]
    ensures |PARAMS| >= 1 && PARAMS == [NUL] + PARAMS[1..]
  {
  }

  lemma Regroup(request: Request, org: OrgId)
    ensures Encode(request, org) == Nested(request, org)
  {
    TagsSplit();
    RegroupAll(HEAD, org, MODEL, request.model, MESSAGES[1..], EncodeTurns(Turns(request.messages)), PARAMS[1..], request);
  }

  lemma RegroupAll(a: bytes, b: bytes, c: bytes, d: bytes, e: bytes, f: bytes, g: bytes, request: Request)
    ensures a + b + c + d + ([NUL] + e) + f + ([NUL] + g) +
            NumberText(request.temperature) + [UNIT] + NumberText(request.topP) + [UNIT] +
            TokensText(request.maxTokens) + EncodeSection(FORMAT, request.responseFormat) +
            EncodeSection(STOP, request.stop) + EncodeExtra(request.extra) ==
            a + (b + (c + (d + ([NUL] + (e + (f + ([NUL] + (g + Params(request)))))))))
  {
    ParamsRegroup(a + b + c + d + ([NUL] + e) + f + ([NUL] + g), request);
    RegroupFront(a, b, c, d, e, f, g, Params(request));
  }

  lemma RegroupFront(a: bytes, b: bytes, c: bytes, d: bytes, e: bytes, f: bytes, g: bytes, h: bytes)
    ensures a + b + c + d + ([NUL] + e) + f + ([NUL] + g) + h ==
            a + (b + (c + (d + ([NUL] + (e + (f + ([NUL] + (g + h))))))))
  {
    Assoc(a + b + c + d + ([NUL] + e) + f, [NUL] + g, h);
    Assoc([NUL], g, h);
    Assoc(a + b + c + d + ([NUL] + e), f, [NUL] + (g + h));
    Assoc(a + b + c + d, [NUL] + e, f + ([NUL] + (g + h)));
    Assoc([NUL], e, f + ([NUL] + (g + h)));
    Assoc(a + b + c, d, [NUL] + (e + (f + ([NUL] + (g + h)))));
    Assoc(a + b, c, d + ([NUL] + (e + (f + ([NUL] + (g + h))))));
    Assoc(a, b, c + (d + ([NUL] + (e + (f + ([NUL] + (g + h)))))));
  }

  lemma TailUnique<T>(a: seq<T>, x: seq<T>, b: seq<T>, y: seq<T>)
    requires |a| == |b| && a + x == b + y
    ensures a == b && x == y
  {
    assert (a + x)[..|a|] == a && (b + y)[..|b|] == b && (a + x)[|a|..] == x && (b + y)[|b|..] == y;
  }

  /** The encoding is uniquely decodable: two requests, each for its organisation, are fed to the
      digest as the same bytes exactly when they are the same request for the same organisation. */
  lemma EncodingIsUnique(a: Request, orgA: OrgId, b: Request, orgB: OrgId)
    requires SeparatorFree(a) && SeparatorFree(b)
    ensures Encode(a, orgA) == Encode(b, orgB) <==> IdentityOf(a, orgA) == IdentityOf(b, orgB)
  {
    if Encode(a, orgA) == Encode(b, orgB) {
      Regroup(a, orgA);
      Regroup(b, orgB);
      ModelsUnique(a, orgA, b, orgB);
    } else if IdentityOf(a, orgA) == IdentityOf(b, orgB) {
      SameNumberText(a.temperature, b.temperature);
      SameNumberText(a.topP, b.topP);
    }
  }

  lemma SameNumberText(a: Option<real>, b: Option<real>)
    requires Six(a) == Six(b)
    ensures NumberText(a) == NumberText(b)
  {
  }

  function AbsReal(x: real): real { if x < 0.0 then -x else x }

  /** A number is fed as its sign and the whole number of millionths nearest to its size; of two that are
      equally near, the even one. */
  lemma SixPlacesRounds(v: real)
    ensures var (negative, n) := SixPlaces(v);
            && negative == (v < 0.0)
            && 2.0 * AbsReal(n as real - AbsReal(v) * 1000000.0) <= 1.0
            && (2.0 * AbsReal(n as real - AbsReal(v) * 1000000.0) == 1.0 ==> n % 2 == 0)
  {
    var size := AbsReal(v) * 1000000.0;
    assert size.Floor as real <= size < size.Floor as real + 1.0;
  }

  /** Both absent, or with the same sign and within a millionth of each other. */
  predicate Near(a: Option<real>, b: Option<real>) {
    if a.Some? && b.Some? then (a.value < 0.0 <==> b.value < 0.0) && AbsReal(a.value - b.value) <= 0.000001
    else a.None? && b.None?
  }

  lemma SameSixIsNear(a: Option<real>, b: Option<real>)
    requires Six(a) == Six(b)
    ensures Near(a, b)
  {
    if a.Some? && b.Some? {
      SixPlacesRounds(a.value);
      SixPlacesRounds(b.value);
    }
  }

  /** Requests that are fed as the same bytes have temperatures that are near each other, and so have they
      the share of probability. */
  lemma SameBytesMeanNearNumbers(a: Request, orgA: OrgId, b: Request, orgB: OrgId)
    requires SeparatorFree(a) && SeparatorFree(b) && Encode(a, orgA) == Encode(b, orgB)
    ensures Near(a.temperature, b.temperature) && Near(a.topP, b.topP)
  {
    EncodingIsUnique(a, orgA, b, orgB);
    SameSixIsNear(a.temperature, b.temperature);
    SameSixIsNear(a.topP, b.topP);
  }

  lemma ModelsUnique(a: Request, orgA: OrgId, b: Request, orgB: OrgId)
    requires SeparatorFree(a) && SeparatorFree(b) && Nested(a, orgA) == Nested(b, orgB)
    ensures IdentityOf(a, orgA) == IdentityOf(b, orgB)
  {
    var turnsA := EncodeTurns(Turns(a.messages)) + ([NUL] + (PARAMS[1..] + Params(a)));
    var turnsB := EncodeTurns(Turns(b.messages)) + ([NUL] + (PARAMS[1..] + Params(b)));
    var modelA, modelB := a.model + ([NUL] + (MESSAGES[1..] + turnsA)), b.model + ([NUL] + (MESSAGES[1..] + turnsB));
    TailUnique(HEAD, orgA + (MODEL + modelA), HEAD, orgB + (MODEL + modelB));
    TailUnique(orgA, MODEL + modelA, orgB, MODEL + modelB);
    TailUnique(MODEL, modelA, MODEL, modelB);
    Assoc(a.model, [NUL], MESSAGES[1..] + turnsA);
    Assoc(b.model, [NUL], MESSAGES[1..] + turnsB);
    FieldUnique(a.model, MESSAGES[1..] + turnsA, b.model, MESSAGES[1..] + turnsB, NUL);
    TailUnique(MESSAGES[1..], turnsA, MESSAGES[1..], turnsB);
    TurnsUnique(Turns(a.messages), PARAMS[1..] + Params(a), Turns(b.messages), PARAMS[1..] + Params(b));
    TailUnique(PARAMS[1..], Params(a), PARAMS[1..], Params(b));
    ParamsUnique(a, b);
  }

  ghost predicate CollisionFree(digest: bytes -> string) {
    forall x, y :: digest(x) == digest(y) ==> x == y
  }

  // ---------------------------------------------------------------------------------------
  // Each part of the condition is needed
  // ---------------------------------------------------------------------------------------

  /** One message can spell out the bytes of two. */
  lemma JoinedTurns(role: Role, first: bytes, second: bytes)
    ensures var joined := first + [RECORD] + RoleText(role) + [UNIT] + second;
            EncodeTurns([Turn(role, joined)]) == EncodeTurns([Turn(role, first), Turn(role, second)])
  {
    var joined := first + [RECORD] + RoleText(role) + [UNIT] + second;
    var one, two := Turn(role, first), Turn(role, second);
    JoinedRecord(RoleText(role), first, second);
    OneTurn(Turn(role, joined));
    OneTurn(two);
    assert [one, two][1..] == [two];
    assert TurnPieces([one, two])[1..] == TurnPieces([two]);
    assert EncodeTurns([one, two]) == EncodeTurn(one) + EncodeTurns([two]);
  }

  /** Two requests that differ and are fed as the same bytes; only a text breaks the rule. */
  lemma RecordInTextCollides(request: Request, org: OrgId, role: Role, first: bytes, second: bytes)
    requires SeparatorFree(request) && RECORD !in first && RECORD !in second
    ensures var joined := first + [RECORD] + RoleText(role) + [UNIT] + second;
            var a, b := request.(messages := [Saying(Turn(role, joined))]),
                        request.(messages := [Saying(Turn(role, first)), Saying(Turn(role, second))]);
            && SeparatorFree(b) && ModelEnds(a) && KeysEnd(a.extra)
            && Encode(a, org) == Encode(b, org) && IdentityOf(a, org) != IdentityOf(b, org)
  {
    var one, two := Turn(role, first), Turn(role, second);
    var joined := Turn(role, first + [RECORD] + RoleText(role) + [UNIT] + second);
    JoinedTurns(role, first, second);
    assert Turns([Saying(joined)]) == [joined] && Turns([Saying(one), Saying(two)]) == [one, two];
    SameTurnsSameBytes(request, [Saying(joined)], [Saying(one), Saying(two)], org);
    TwoTextsEnd(one, two);
  }

  lemma SameTurnsSameBytes(request: Request, a: seq<Message>, b: seq<Message>, org: OrgId)
    requires EncodeTurns(Turns(a)) == EncodeTurns(Turns(b))
    ensures Encode(request.(messages := a), org) == Encode(request.(messages := b), org)
  {
  }

  lemma TwoTextsEnd(one: Turn, two: Turn)
    requires RECORD !in one.text && RECORD !in two.text
    ensures TextsEnd([one, two])
  {
  }

  /** What is not hashed of a message besides: its name, its tool calls, the call it answers, and the parts
      of its content that have no text. Nor is the tool choice or the user. Requests that differ in nothing
      else are fed as the same bytes, and may be cached or not alike. */
  lemma UnhashedFieldsCollide(request: Request, messages: seq<Message>, toolChoice: Option<Json>, user: Option<bytes>,
                              org: OrgId)
    requires |messages| == |request.messages|
    requires forall i :: 0 <= i < |messages| ==>
               && messages[i].role == request.messages[i].role
               && AsText(messages[i].content) == AsText(request.messages[i].content)
    ensures var other := request.(messages := messages, toolChoice := toolChoice, user := user);
            && Encode(other, org) == Encode(request, org) && IdentityOf(other, org) == IdentityOf(request, org)
            && (SeparatorFree(other) <==> SeparatorFree(request))
  {
    assert forall i :: 0 <= i < |messages| ==> messages[i].AsTurn() == request.messages[i].AsTurn();
    assert Turns(messages) == Turns(request.messages);
  }

  lemma JoinedFields(k: bytes, v: Json, l: bytes, w: Json)
    ensures EncodeFields([Field(k + [UNIT] + v + [RECORD] + l, w)]) == EncodeFields([Field(k, v), Field(l, w)])
  {
    var one, two := Field(k, v), Field(l, w);
    var all := Field(k + [UNIT] + v + [RECORD] + l, w);
    assert [one, two][1..] == [two] && [two][1..] == [] && [all][1..] == [];
    FieldsSplit([one, two]);
    FieldsSplit([two]);
    FieldsSplit([all]);
    JoinedKey(k, v, l, w);
  }

  lemma JoinedKey(k: bytes, v: bytes, l: bytes, w: bytes)
    ensures k + [UNIT] + v + [RECORD] + l + [UNIT] + w + [RECORD] + [] ==
            k + [UNIT] + v + [RECORD] + (l + [UNIT] + w + [RECORD] + [])
  {
  }

  /** The same, and only a key breaks the rule. */
  lemma UnitInKeyCollides(request: Request, org: OrgId, k: bytes, v: Json, l: bytes, w: Json)
    requires SeparatorFree(request) && UNIT !in k && UNIT !in l
    ensures var a, b := request.(extra := [Field(k + [UNIT] + v + [RECORD] + l, w)]),
                        request.(extra := [Field(k, v), Field(l, w)]);
            && SeparatorFree(b) && ModelEnds(a) && TextsEnd(Turns(a.messages))
            && Encode(a, org) == Encode(b, org) && IdentityOf(a, org) != IdentityOf(b, org)
  {
    JoinedFields(k, v, l, w);
  }

  lemma ShiftedTurn(model: bytes, outer: Role, inner: Role, x: bytes, z: bytes)
    ensures model + MESSAGES + RoleText(outer) + [UNIT] + x + MESSAGES + EncodeTurns([Turn(inner, z)]) ==
            model + MESSAGES + EncodeTurns([Turn(outer, x + MESSAGES + RoleText(inner) + [UNIT] + z)])
  {
    OneTurn(Turn(inner, z));
    OneTurn(Turn(outer, x + MESSAGES + RoleText(inner) + [UNIT] + z));
    ShiftedBytes(model + MESSAGES, RoleText(outer), x, MESSAGES, RoleText(inner), z);
  }

  lemma ShiftedBytes(front: bytes, outer: bytes, x: bytes, tag: bytes, inner: bytes, z: bytes)
    ensures front + outer + [UNIT] + x + tag + (inner + [UNIT] + z + [RECORD]) ==
            front + (outer + [UNIT] + (x + tag + inner + [UNIT] + z) + [RECORD])
  {
  }

  lemma SameFront(front: bytes, m: bytes, tag: bytes, t: bytes, m': bytes, t': bytes)
    requires m + tag + t == m' + tag + t'
    ensures front + m + tag + t == front + m' + tag + t'
  {
    Assoc(front, m, tag);
    Assoc(front, m + tag, t);
    Assoc(front, m', tag);
    Assoc(front, m' + tag, t');
  }

  /** The same, and only the model breaks the rule. */
  lemma NulInModelCollides(request: Request, org: OrgId, outer: Role, inner: Role, x: bytes, z: bytes)
    requires SeparatorFree(request) && RECORD !in x && RECORD !in z
    ensures var a, b := request.(model := request.model + MESSAGES + RoleText(outer) + [UNIT] + x,
                                 messages := [Saying(Turn(inner, z))]),
                        request.(messages := [Saying(Turn(outer, x + MESSAGES + RoleText(inner) + [UNIT] + z))]);
            && SeparatorFree(b) && TextsEnd(Turns(a.messages)) && KeysEnd(a.extra)
            && Encode(a, org) == Encode(b, org) && IdentityOf(a, org) != IdentityOf(b, org)
  {
    var a, b := request.(model := request.model + MESSAGES + RoleText(outer) + [UNIT] + x,
                         messages := [Saying(Turn(inner, z))]),
                request.(messages := [Saying(Turn(outer, x + MESSAGES + RoleText(inner) + [UNIT] + z))]);
    ShiftedTurn(request.model, outer, inner, x, z);
    ShiftedTexts(outer, inner, x, z);
    SameFrontSameBytes(a, b, org);
    assert |a.model| > |b.model|;
  }

  lemma ShiftedTexts(outer: Role, inner: Role, x: bytes, z: bytes)
    requires RECORD !in x && RECORD !in z
    ensures var one, other := Turn(inner, z), Turn(outer, x + MESSAGES + RoleText(inner) + [UNIT] + z);
            && Turns([Saying(one)]) == [one] && Turns([Saying(other)]) == [other]
            && TextsEnd([one]) && TextsEnd([other])
  {
    TagAvoidsRecord(inner);
    NoRecord(x, MESSAGES, RoleText(inner), z);
    OneTextEnds(Turn(inner, z));
    OneTextEnds(Turn(outer, x + MESSAGES + RoleText(inner) + [UNIT] + z));
  }

  lemma NoRecord(a: bytes, b: bytes, c: bytes, d: bytes)
    requires RECORD !in a && RECORD !in b && RECORD !in c && RECORD !in d
    ensures RECORD !in a + b + c + [UNIT] + d
  {
  }

  lemma OneTextEnds(turn: Turn)
    requires RECORD !in turn.text
    ensures TextsEnd([turn])
  {
  }

  lemma SameFrontSameBytes(a: Request, b: Request, org: OrgId)
    requires a == b.(model := a.model, messages := a.messages)
    requires a.model + MESSAGES + EncodeTurns(Turns(a.messages)) == b.model + MESSAGES + EncodeTurns(Turns(b.messages))
    ensures Encode(a, org) == Encode(b, org)
  {
    SameFront(HEAD + org + MODEL, a.model, MESSAGES, EncodeTurns(Turns(a.messages)), b.model, EncodeTurns(Turns(b.messages)));
  }

  lemma TagAvoidsRecord(role: Role)
    ensures RECORD !in MESSAGES && RECORD !in RoleText(role)
  {
    AsciiIsPlain("messages");
    AsciiIsPlain(RoleName(role));
  }

  lemma OneTurn(turn: Turn)
    ensures EncodeTurns([turn]) == EncodeTurn(turn)
  {
    var piece := EncodeTurn(turn);
    assert TurnPieces([turn]) == [piece];
    FlattenSnoc([], piece);
    assert [] + [piece] == [piece] && Flatten<byte>([]) + piece == piece;
  }

  lemma JoinedRecord(r: bytes, first: bytes, second: bytes)
    ensures r + [UNIT] + (first + [RECORD] + r + [UNIT] + second) + [RECORD] ==
            r + [UNIT] + first + [RECORD] + (r + [UNIT] + second + [RECORD])
  {
    var head, tail := r + [UNIT], r + [UNIT] + second;
    Assoc(first + [RECORD], r, [UNIT]);
    Assoc(first + [RECORD], head, second);
    Assoc(head, first + [RECORD], tail);
    Assoc(head, first, [RECORD]);
    Assoc(head + first + [RECORD], tail, [RECORD]);
  }
}
