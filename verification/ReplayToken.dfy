/** Replay tokens: the URL-safe Base64 of a JSON summary of an evidence result. */
module ReplayToken {
  import opened Common
  import opened Decimal
  import Base64
  import EvidenceTarget

  datatype Operation = Tail | Search | Context | Range

  function Name(op: Operation): bytes {
    match op
    case Tail => "tail"
    case Search => "search"
    case Context => "context"
    case Range => "range"
  }

  /** The parts of an evidence result that enter the token. */
  datatype Evidence = Evidence(
    sessionId: bytes, operation: Operation, revisionStart: nat, revisionEnd: nat, count: nat, query: bytes)

  // ----- JSON string escaping (section 7 of RFC 8259) -----

  const QUOTE: byte := '"'
  const BACKSLASH: byte := '\\'

  function HexDigit(v: nat): byte
    requires v < 16
  {
    if v < 10 then ('0' as int + v) as char else ('a' as int + v - 10) as char
  }

  function EscapeByte(c: byte): bytes {
    if c == '"' then ['\\', '"']
    else if c == '\\' then ['\\', '\\']
    else if c as int == 8 then ['\\', 'b']
    else if c as int == 12 then ['\\', 'f']
    else if c == '\n' then ['\\', 'n']
    else if c == '\r' then ['\\', 'r']
    else if c == '\t' then ['\\', 't']
    else if c as int < 32 then ['\\', 'u', '0', '0', HexDigit(c as int / 16), HexDigit(c as int % 16)]
    else [c]
  }

  function Escape(s: bytes): bytes {
    if s == "" then "" else EscapeByte(s[0]) + Escape(s[1..])
  }

  method JsonEscape(input: bytes) returns (escaped: bytes)
    ensures escaped == Escape(input)
  {
    escaped := "";
    for i := 0 to |input|
      invariant escaped + Escape(input[i..]) == Escape(input)
    {
      assert input[i..][1..] == input[i + 1..];
      Join(escaped, EscapeByte(input[i]), Escape(input[i + 1..]));
      escaped := escaped + EscapeByte(input[i]);
    }
  }

  // ----- reading a JSON string back -----

  /** One possibly escaped character: the byte and the number of characters it takes.  Escapes beyond
      the first 256 code points are not produced here and not read. */
  function ReadByte(s: bytes): Option<(byte, nat)> {
    if s == "" || s[0] == QUOTE then None
    else if s[0] != BACKSLASH then Some((s[0], 1))
    else if |s| < 2 then None
    else if s[1] in {'"', '\\', '/'} then Some((s[1], 2))
    else if s[1] == 'b' then Some((8 as char, 2))
    else if s[1] == 'f' then Some((12 as char, 2))
    else if s[1] == 'n' then Some(('\n', 2))
    else if s[1] == 'r' then Some(('\r', 2))
    else if s[1] == 't' then Some(('\t', 2))
    else if s[1] == 'u' && |s| >= 6 && s[2] == '0' && s[3] == '0' && HexValue(s[4]) >= 0 && HexValue(s[5]) >= 0 then
      Some(((HexValue(s[4]) * 16 + HexValue(s[5])) as char, 6))
    else None
  }

  /** A string up to its closing quote, and what follows the quote. */
  function ReadString(s: bytes): Option<(bytes, bytes)>
    decreases |s|
  {
    if s == "" then None
    else if s[0] == QUOTE then Some(("", s[1..]))
    else
      var b := ReadByte(s);
      if b.None? || b.value.1 > |s| || b.value.1 == 0 then None
      else
        var r := ReadString(s[b.value.1..]);
        if r.None? then None else Some(([b.value.0] + r.value.0, r.value.1))
  }

  lemma {:induction false} ReadEscapedByte(c: byte, t: bytes)
    ensures ReadByte(EscapeByte(c) + t) == Some((c, |EscapeByte(c)|))
    ensures (EscapeByte(c) + t)[0] != QUOTE
  {}

  lemma {:induction false} ReadCons(c: byte, t: bytes, r: (bytes, bytes))
    requires ReadString(t) == Some(r)
    ensures ReadString(EscapeByte(c) + t) == Some(([c] + r.0, r.1))
  {
    ReadEscapedByte(c, t);
    assert (EscapeByte(c) + t)[|EscapeByte(c)|..] == t;
  }

  lemma {:induction false} ReadEnd(rest: bytes)
    ensures ReadString([QUOTE] + rest) == Some(("", rest))
  {
    assert ([QUOTE] + rest)[1..] == rest;
  }

  /** Escaping is undone by reading: the string ends at the first quote after it. */
  lemma {:induction false} ReadEscaped(s: bytes, rest: bytes)
    ensures ReadString(Escape(s) + ([QUOTE] + rest)) == Some((s, rest))
  {
    var end := [QUOTE] + rest;
    if s == "" {
      assert Escape(s) + end == end;
      ReadEnd(rest);
    } else {
      ReadEscaped(s[1..], rest);
      ReadCons(s[0], Escape(s[1..]) + end, (s[1..], rest));
      Join(EscapeByte(s[0]), Escape(s[1..]), end);
      assert [s[0]] + s[1..] == s;
    }
  }

  lemma {:induction false} EscapedThenRest(a: bytes, b: bytes, x: bytes, y: bytes)
    requires Escape(a) + ([QUOTE] + x) == Escape(b) + ([QUOTE] + y)
    ensures a == b && x == y
  {
    ReadEscaped(a, x);
    ReadEscaped(b, y);
  }

  // ----- the token -----

  const BEFORE_ID: bytes := "{\"source_session_id\":\""
  const BEFORE_OPERATION: bytes := ",\"operation\":\""
  const BEFORE_START: bytes := ",\"revision_start\":"
  const BEFORE_END: bytes := ",\"revision_end\":"
  const BEFORE_LIMIT: bytes := ",\"limit\":"
  const BEFORE_QUERY: bytes := ",\"query\":\""
  const CLOSING: bytes := "}"

  /** The JSON text, from each field on. */
  function FromQuery(e: Evidence): bytes { BEFORE_QUERY + (Escape(e.query) + [QUOTE] + CLOSING) }

  function FromLimit(e: Evidence): bytes { BEFORE_LIMIT + (ToString(e.count) + FromQuery(e)) }

  function FromEnd(e: Evidence): bytes { BEFORE_END + (ToString(e.revisionEnd) + FromLimit(e)) }

  function FromStart(e: Evidence): bytes { BEFORE_START + (ToString(e.revisionStart) + FromEnd(e)) }

  function FromOperation(e: Evidence): bytes { BEFORE_OPERATION + (Name(e.operation) + [QUOTE] + FromStart(e)) }

  function Summary(e: Evidence): bytes { BEFORE_ID + (Escape(e.sessionId) + ([QUOTE] + FromOperation(e))) }

  function Token(e: Evidence): bytes { Base64.Encode(Base64.UrlSafe, Summary(e)) }

  method MakeReplayToken(e: Evidence) returns (token: bytes)
    ensures token == Token(e)
  {
    var id := JsonEscape(e.sessionId);
    var query := JsonEscape(e.query);
    var json := BEFORE_ID + id + [QUOTE];
    Close(BEFORE_ID, id, FromOperation(e));
    ghost var whole := Summary(e);
    assert json + FromOperation(e) == whole;
    json := Field(json, BEFORE_OPERATION, Name(e.operation) + [QUOTE], FromStart(e), whole);
    json := Field(json, BEFORE_START, ToString(e.revisionStart), FromEnd(e), whole);
    json := Field(json, BEFORE_END, ToString(e.revisionEnd), FromLimit(e), whole);
    json := Field(json, BEFORE_LIMIT, ToString(e.count), FromQuery(e), whole);
    json := Field(json, BEFORE_QUERY, query + [QUOTE], CLOSING, whole);
    json := json + CLOSING;
    token := Base64.Base64UrlEncode(json);
  }

  /** Streams one label and value into the text. */
  method Field(json: bytes, caption: bytes, value: bytes, ghost rest: bytes, ghost whole: bytes) returns (r: bytes)
    requires json + (caption + (value + rest)) == whole
    ensures r == json + caption + value && r + rest == whole
  {
    r := json + caption + value;
    Join(json + caption, value, rest);
    Join(json, caption, value + rest);
  }

  lemma {:induction false} Close(a: bytes, b: bytes, c: bytes)
    ensures a + b + [QUOTE] + c == a + (b + ([QUOTE] + c))
  {}

  lemma {:induction false} Strip(p: bytes, x: bytes, y: bytes)
    requires p + x == p + y
    ensures x == y
  {
    assert x == (p + x)[|p|..] && y == (p + y)[|p|..];
  }

  lemma {:induction false} NamesDiffer(a: Operation, b: Operation, x: bytes, y: bytes)
    requires Name(a) + ([QUOTE] + x) == Name(b) + ([QUOTE] + y)
    ensures a == b && x == y
  {
    assert (Name(a) + ([QUOTE] + x))[0] == Name(a)[0] && (Name(b) + ([QUOTE] + y))[0] == Name(b)[0];
    Strip(Name(a), [QUOTE] + x, [QUOTE] + y);
    Strip([QUOTE], x, y);
  }

  lemma {:induction false} FromQueryInjective(a: Evidence, b: Evidence)
    requires FromQuery(a) == FromQuery(b)
    ensures a.query == b.query
  {
    Strip(BEFORE_QUERY, Escape(a.query) + [QUOTE] + CLOSING, Escape(b.query) + [QUOTE] + CLOSING);
    Join(Escape(a.query), [QUOTE], CLOSING);
    Join(Escape(b.query), [QUOTE], CLOSING);
    EscapedThenRest(a.query, b.query, CLOSING, CLOSING);
  }

  lemma {:induction false} FromStartInjective(a: Evidence, b: Evidence)
    requires FromStart(a) == FromStart(b)
    ensures a.revisionStart == b.revisionStart && a.revisionEnd == b.revisionEnd
    ensures a.count == b.count && a.query == b.query
  {
    Strip(BEFORE_START, ToString(a.revisionStart) + FromEnd(a), ToString(b.revisionStart) + FromEnd(b));
    assert FromEnd(a)[0] == ',' && FromEnd(b)[0] == ',';
    NumberThenRest(a.revisionStart, b.revisionStart, FromEnd(a), FromEnd(b));
    Strip(BEFORE_END, ToString(a.revisionEnd) + FromLimit(a), ToString(b.revisionEnd) + FromLimit(b));
    assert FromLimit(a)[0] == ',' && FromLimit(b)[0] == ',';
    NumberThenRest(a.revisionEnd, b.revisionEnd, FromLimit(a), FromLimit(b));
    Strip(BEFORE_LIMIT, ToString(a.count) + FromQuery(a), ToString(b.count) + FromQuery(b));
    assert FromQuery(a)[0] == ',' && FromQuery(b)[0] == ',';
    NumberThenRest(a.count, b.count, FromQuery(a), FromQuery(b));
    FromQueryInjective(a, b);
  }

  /** Two results have the same token exactly when they agree on every field that enters it. */
  lemma {:induction false} TokensAreInjective(a: Evidence, b: Evidence)
    ensures Token(a) == Token(b) <==> a == b
  {
    if Token(a) == Token(b) {
      Base64.UrlEncodeIsInjective(Summary(a), Summary(b));
      Strip(BEFORE_ID, Escape(a.sessionId) + ([QUOTE] + FromOperation(a)),
            Escape(b.sessionId) + ([QUOTE] + FromOperation(b)));
      EscapedThenRest(a.sessionId, b.sessionId, FromOperation(a), FromOperation(b));
      Strip(BEFORE_OPERATION, Name(a.operation) + [QUOTE] + FromStart(a), Name(b.operation) + [QUOTE] + FromStart(b));
      Join(Name(a.operation), [QUOTE], FromStart(a));
      Join(Name(b.operation), [QUOTE], FromStart(b));
      NamesDiffer(a.operation, b.operation, FromStart(a), FromStart(b));
      FromStartInjective(a, b);
    }
  }

  // ----- reading the token -----

  /** The values that occur in a token. */
  datatype Json = JsonText(text: bytes) | JsonNumber(number: nat)

  type Members = map<bytes, Json>

  function ReadValue(s: bytes): Option<(Json, bytes)> {
    if s != "" && s[0] == QUOTE then
      var r := ReadString(s[1..]);
      if r.None? then None else Some((JsonText(r.value.0), r.value.1))
    else
      var digits := Leading(s);
      if digits == "" then None else Some((JsonNumber(Number(digits)), s[|digits|..]))
  }

  /** A name, a colon and a value, and what follows them. */
  function ReadMember(s: bytes): Option<((bytes, Json), bytes)> {
    var name := if s != "" && s[0] == QUOTE then ReadString(s[1..]) else None;
    if name.None? || name.value.1 == "" || name.value.1[0] != ':' then None
    else
      var value := ReadValue(name.value.1[1..]);
      if value.None? then None else Some(((name.value.0, value.value.0), value.value.1))
  }

  /** The members up to the closing brace, which must end the text. */
  function ReadMembers(s: bytes): Option<Members>
    decreases |s|
  {
    var member := ReadMember(s);
    if member.None? then None
    else
      var ((name, value), rest) := member.value;
      if rest == CLOSING then Some(map[name := value])
      else if rest == "" || rest[0] != ',' || |rest| > |s| then None
      else
        var others := ReadMembers(rest[1..]);
        if others.None? then None else Some(others.value[name := value])
  }

  function ReadObject(s: bytes): Option<Members> { if s == "" || s[0] != '{' then None else ReadMembers(s[1..]) }

  /** A value, and a member, followed by more text. */
  function ValueThen(v: Json, after: bytes): bytes {
    match v
    case JsonText(text) => [QUOTE] + (Escape(text) + ([QUOTE] + after))
    case JsonNumber(number) => ToString(number) + after
  }

  function MemberThen(name: bytes, v: Json, after: bytes): bytes {
    [QUOTE] + (name + ([QUOTE] + ([':'] + ValueThen(v, after))))
  }

  predicate NeedsNoEscape(name: bytes) {
    forall i :: 0 <= i < |name| ==> name[i] as int >= 32 && name[i] != QUOTE && name[i] != BACKSLASH
  }

  lemma {:induction false} EscapeNothing(name: bytes)
    requires NeedsNoEscape(name)
    ensures Escape(name) == name
  {
    if name == "" {
    } else {
      EscapeNothing(name[1..]);
      assert [name[0]] + name[1..] == name;
    }
  }

  lemma {:induction false} TextReadBack(text: bytes, after: bytes)
    ensures ReadValue(ValueThen(JsonText(text), after)) == Some((JsonText(text), after))
  {
    ReadEscaped(text, after);
    var inside := Escape(text) + ([QUOTE] + after);
    assert ([QUOTE] + inside)[1..] == inside;
  }

  lemma {:induction false} NumberReadBack(number: nat, after: bytes)
    requires after != "" && !IsDigit(after[0])
    ensures ReadValue(ValueThen(JsonNumber(number), after)) == Some((JsonNumber(number), after))
  {
    var digits := ToString(number);
    NumberOfToString(number);
    LeadingOf(digits, after);
    assert (digits + after)[|digits|..] == after && IsDigit((digits + after)[0]);
  }

  lemma {:induction false} NameReadBack(name: bytes, value: bytes)
    requires NeedsNoEscape(name)
    ensures ReadMember([QUOTE] + (name + ([QUOTE] + ([':'] + value))))
         == var v := ReadValue(value);
            if v.None? then None else Some(((name, v.value.0), v.value.1))
  {
    var rest := [':'] + value;
    var inside := name + ([QUOTE] + rest);
    EscapeNothing(name);
    ReadEscaped(name, rest);
    assert ([QUOTE] + inside)[1..] == inside && rest[1..] == value;
  }

  lemma {:induction false} MemberReadBack(name: bytes, v: Json, after: bytes)
    requires NeedsNoEscape(name) && after != "" && !IsDigit(after[0])
    ensures ReadMember(MemberThen(name, v, after)) == Some(((name, v), after))
  {
    NameReadBack(name, ValueThen(v, after));
    match v
    case JsonText(text) => TextReadBack(text, after);
    case JsonNumber(number) => NumberReadBack(number, after);
  }

  lemma {:induction false} LastMember(name: bytes, v: Json)
    requires NeedsNoEscape(name)
    ensures ReadMembers(MemberThen(name, v, CLOSING)) == Some(map[name := v])
  {
    MemberReadBack(name, v, CLOSING);
  }

  /** A comma and then the rest of an object, with these members. */
  ghost predicate Continues(s: bytes, members: Members) {
    s != "" && s[0] == ',' && ReadMembers(s[1..]) == Some(members)
  }

  lemma {:induction false} NextMember(name: bytes, v: Json, after: bytes, members: Members)
    requires NeedsNoEscape(name) && Continues(after, members)
    ensures ReadMembers(MemberThen(name, v, after)) == Some(members[name := v])
    ensures Continues([','] + MemberThen(name, v, after), members[name := v])
  {
    MemberReadBack(name, v, after);
    var text := MemberThen(name, v, after);
    assert |after| <= |text|;
    assert ([','] + text)[1..] == text;
  }

  // ----- the fields of a token -----

  const SESSION: bytes := "source_session_id"
  const OPERATION: bytes := "operation"
  const START: bytes := "revision_start"
  const END: bytes := "revision_end"
  const LIMIT: bytes := "limit"
  const QUERY: bytes := "query"

  /** What a token says, by the names of its members. */
  function Fields(e: Evidence): Members {
    map[SESSION := JsonText(e.sessionId), OPERATION := JsonText(Name(e.operation)),
        START := JsonNumber(e.revisionStart), END := JsonNumber(e.revisionEnd),
        LIMIT := JsonNumber(e.count), QUERY := JsonText(e.query)]
  }

  /** The text before a value: a separator, the name in quotes and a colon. */
  function Caption(first: byte, name: bytes): bytes { [first] + ([QUOTE] + (name + [QUOTE, ':'])) }

  lemma {:induction false} Captions()
    ensures BEFORE_ID == Caption('{', SESSION) + [QUOTE] && BEFORE_OPERATION == Caption(',', OPERATION) + [QUOTE]
    ensures BEFORE_START == Caption(',', START) && BEFORE_END == Caption(',', END)
    ensures BEFORE_LIMIT == Caption(',', LIMIT) && BEFORE_QUERY == Caption(',', QUERY) + [QUOTE]
  {}

  lemma {:induction false} CaptionThen(first: byte, name: bytes, value: bytes)
    ensures Caption(first, name) + value == [first] + ([QUOTE] + (name + ([QUOTE] + ([':'] + value))))
  {}

  lemma {:induction false} TextCaption(first: byte, name: bytes, text: bytes, after: bytes)
    ensures Caption(first, name) + [QUOTE] + (Escape(text) + ([QUOTE] + after))
         == [first] + MemberThen(name, JsonText(text), after)
  {
    var inside := Escape(text) + ([QUOTE] + after);
    Join(Caption(first, name), [QUOTE], inside);
    CaptionThen(first, name, [QUOTE] + inside);
  }

  lemma {:induction false} NumberCaption(name: bytes, number: nat, after: bytes)
    ensures Caption(',', name) + (ToString(number) + after) == [','] + MemberThen(name, JsonNumber(number), after)
  {
    CaptionThen(',', name, ToString(number) + after);
  }

  lemma {:induction false} NamesNeedNoEscape()
    ensures NeedsNoEscape(SESSION) && NeedsNoEscape(OPERATION) && NeedsNoEscape(START) && NeedsNoEscape(END)
    ensures NeedsNoEscape(LIMIT) && NeedsNoEscape(QUERY)
    ensures forall op :: NeedsNoEscape(Name(op))
  {}

  lemma {:induction false} QueryContinues(e: Evidence)
    ensures Continues(FromQuery(e), map[QUERY := JsonText(e.query)])
  {
    Captions();
    NamesNeedNoEscape();
    Join(Escape(e.query), [QUOTE], CLOSING);
    TextCaption(',', QUERY, e.query, CLOSING);
    LastMember(QUERY, JsonText(e.query));
    var text := MemberThen(QUERY, JsonText(e.query), CLOSING);
    assert ([','] + text)[1..] == text;
  }

  lemma {:induction false} NumberContinues(caption: bytes, name: bytes, number: nat, after: bytes, members: Members)
    requires caption == Caption(',', name) && NeedsNoEscape(name) && Continues(after, members)
    ensures Continues(caption + (ToString(number) + after), members[name := JsonNumber(number)])
  {
    NumberCaption(name, number, after);
    NextMember(name, JsonNumber(number), after, members);
  }

  function Numbers(e: Evidence): Members {
    map[QUERY := JsonText(e.query)][LIMIT := JsonNumber(e.count)][END := JsonNumber(e.revisionEnd)]
    [START := JsonNumber(e.revisionStart)]
  }

  lemma {:induction false} NumbersContinue(e: Evidence)
    ensures Continues(FromStart(e), Numbers(e))
  {
    Captions();
    NamesNeedNoEscape();
    QueryContinues(e);
    var m: Members := map[QUERY := JsonText(e.query)];
    NumberContinues(BEFORE_LIMIT, LIMIT, e.count, FromQuery(e), m);
    m := m[LIMIT := JsonNumber(e.count)];
    NumberContinues(BEFORE_END, END, e.revisionEnd, FromLimit(e), m);
    m := m[END := JsonNumber(e.revisionEnd)];
    NumberContinues(BEFORE_START, START, e.revisionStart, FromEnd(e), m);
  }

  lemma {:induction false} OperationContinues(e: Evidence)
    ensures Continues(FromOperation(e), Numbers(e)[OPERATION := JsonText(Name(e.operation))])
  {
    var name, after := Name(e.operation), FromStart(e);
    Captions();
    NamesNeedNoEscape();
    NumbersContinue(e);
    EscapeNothing(name);
    Join(name, [QUOTE], after);
    TextCaption(',', OPERATION, name, after);
    NextMember(OPERATION, JsonText(name), after, Numbers(e));
  }

  lemma {:induction false} SummaryReads(e: Evidence)
    ensures ReadObject(Summary(e))
         == Some(Numbers(e)[OPERATION := JsonText(Name(e.operation))][SESSION := JsonText(e.sessionId)])
  {
    Captions();
    NamesNeedNoEscape();
    OperationContinues(e);
    var after := FromOperation(e);
    TextCaption('{', SESSION, e.sessionId, after);
    NextMember(SESSION, JsonText(e.sessionId), after, Numbers(e)[OPERATION := JsonText(Name(e.operation))]);
    var text := MemberThen(SESSION, JsonText(e.sessionId), after);
    assert (['{'] + text)[1..] == text;
  }

  lemma {:induction false} MembersAreFields(e: Evidence)
    ensures Numbers(e)[OPERATION := JsonText(Name(e.operation))][SESSION := JsonText(e.sessionId)] == Fields(e)
  {}

  /** A reader of the token finds every field of the evidence under its name, and nothing else. */
  lemma {:induction false} TokenReads(e: Evidence)
    ensures ReadObject(Base64.UrlDecodeFrom(Token(e), 0)) == Some(Fields(e))
  {
    Base64.UrlDecodeInverts([], Summary(e), 0);
    assert [] + Token(e) == Token(e) && Summary(e)[0..] == Summary(e);
    SummaryReads(e);
    MembersAreFields(e);
  }

  /** The operation that a call on the session manager is evidence of. */
  function OperationOf(call: EvidenceTarget.Call): Operation {
    match call
    case TailCall(_, _) => Tail
    case SearchCall(_, _, _) => Search
    case RangeCall(_, _, _, _) => Range
    case ContextCall(_, _, _, _) => Context
  }

  /** A request under the operation a token names leads to the call the token is evidence of. */
  lemma {:induction false} TokenNamesTheCall(e: Evidence, id: bytes, target: bytes)
    ensures var read := ReadObject(Base64.UrlDecodeFrom(Token(e), 0));
      && read.Some? && OPERATION in read.value && read.value[OPERATION].JsonText?
      && var name := read.value[OPERATION].text;
         && EvidenceTarget.IsOperation(name)
         && var call := EvidenceTarget.ParseCall(id, name, target);
            call.Some? ==> OperationOf(call.value) == e.operation
  {
    TokenReads(e);
  }
}
