/** Evidence requests: the target the command line builds, and what the server reads out of it. */
module EvidenceTarget {
  import opened Common
  import opened Decimal
  import opened UrlCodec
  import TextSearch

  datatype Request = Request(
    sessionId: bytes, operation: bytes, lines: Option<nat>, query: Option<bytes>,
    revisionStart: Option<nat>, revisionEnd: Option<nat>, revision: Option<nat>,
    before: Option<nat>, after: Option<nat>, limit: Option<nat>)

  /** The numbers of a request are 64-bit words. */
  predicate Fits(n: Option<nat>) { n.Some? ==> n.value < WORD }

  predicate IsRequest(r: Request) {
    && Fits(r.lines) && Fits(r.revisionStart) && Fits(r.revisionEnd) && Fits(r.revision)
    && Fits(r.before) && Fits(r.after) && Fits(r.limit)
  }

  // ----- the command line -----

  const SESSIONS: bytes := "/sessions/"
  const EVIDENCE: bytes := "/evidence/"

  type Pairs = seq<(bytes, bytes)>

  function Pair(key: bytes, value: bytes): (bytes, bytes) { (key, value) }

  function Optional(key: bytes, n: Option<nat>): Pairs { if n.Some? then [Pair(key, ToString(n.value))] else [] }

  /** The query items of a request, or nothing if the request is refused. */
  function Items(r: Request): Option<Pairs> {
    if r.operation == "tail" then Some(Optional("lines", r.lines))
    else if r.operation == "search" then
      if r.query.None? then None else Some([Pair("query", Encoded(r.query.value))] + Optional("limit", r.limit))
    else if r.operation == "range" then
      if r.revisionStart.None? || r.revisionEnd.None? then None
      else Some(Optional("start", r.revisionStart) + Optional("end", r.revisionEnd) + Optional("limit", r.limit))
    else if r.operation == "context" then
      if r.revision.None? then None
      else Some(Optional("revision", r.revision) + Optional("before", r.before) + Optional("after", r.after))
    else None
  }

  function Path(sessionId: bytes, operation: bytes): bytes {
    SESSIONS + Encoded(sessionId) + EVIDENCE + Encoded(operation)
  }

  function WithQuery(path: bytes, pairs: Pairs): bytes { if pairs == [] then path else path + "?" + Joined(pairs) }

  /** The target, or nothing if the request is refused. */
  function Target(r: Request): Option<bytes> {
    if r.sessionId == "" || r.operation == "" || Items(r).None? then None
    else Some(WithQuery(Path(r.sessionId, r.operation), Items(r).value))
  }

  /** Appends one item; the separator is `?` before the first and `&` before the others. */
  method AppendQuery(target: bytes, separator: byte, key: bytes, value: bytes, ghost path: bytes, ghost pairs: Pairs)
    returns (t: bytes, s: byte)
    requires target == WithQuery(path, pairs) && separator == (if pairs == [] then '?' else '&')
    ensures t == WithQuery(path, pairs + [Pair(key, Encoded(value))]) && s == '&'
  {
    var e := UrlEncode(value);
    t := target + [separator] + key + "=" + e;
    WithQuerySnoc(path, pairs, key, e);
    s := '&';
  }

  lemma {:induction false} WithQuerySnoc(path: bytes, pairs: Pairs, key: bytes, value: bytes)
    ensures WithQuery(path, pairs + [Pair(key, value)])
         == WithQuery(path, pairs) + [if pairs == [] then '?' else '&'] + key + "=" + value
  {
    JoinedSnoc(pairs, Pair(key, value));
    var all := pairs + [Pair(key, value)];
    assert all != [];
    if pairs == [] {
      Regroup(path, "?", "", key, "=", value);
      assert path + "?" + "" == path + "?" && "" + key == key;
    } else {
      Regroup(path + "?", Joined(pairs), "&", key, "=", value);
    }
  }

  lemma {:induction false} Regroup(p: bytes, a: bytes, b: bytes, c: bytes, d: bytes, e: bytes)
    ensures p + (a + b + c + d + e) == p + a + b + c + d + e
    ensures p + a + (b + c + d + e) == p + a + b + c + d + e
  {}

  lemma {:induction false} JoinedSnoc(pairs: Pairs, p: (bytes, bytes))
    ensures Joined(pairs + [p]) == if pairs == [] then p.0 + "=" + p.1 else Joined(pairs) + "&" + p.0 + "=" + p.1
  {
    if |pairs| > 1 {
      assert (pairs + [p])[1..] == pairs[1..] + [p];
      JoinedSnoc(pairs[1..], p);
      var head := pairs[0].0 + "=" + pairs[0].1 + "&";
      assert Joined(pairs + [p]) == head + (Joined(pairs[1..]) + "&" + p.0 + "=" + p.1);
    } else if |pairs| == 1 {
      assert (pairs + [p])[1..] == [p];
    }
  }

  method AppendSize(target: bytes, separator: byte, key: bytes, n: Option<nat>, ghost path: bytes, ghost pairs: Pairs)
    returns (t: bytes, s: byte)
    requires target == WithQuery(path, pairs) && separator == (if pairs == [] then '?' else '&')
    ensures t == WithQuery(path, pairs + Optional(key, n))
    ensures s == if pairs + Optional(key, n) == [] then '?' else '&'
  {
    t, s := target, separator;
    if n.Some? {
      DigitsUnchanged(n.value);
      t, s := AppendQuery(target, separator, key, ToString(n.value), path, pairs);
    } else {
      assert pairs + [] == pairs;
    }
  }

  lemma {:induction false} DigitsUnchanged(n: nat)
    ensures Encoded(ToString(n)) == ToString(n) && AllUnreserved(ToString(n))
  {
    NumberOfToString(n);
    EncodedUnchanged(ToString(n));
  }

  method BuildEvidenceTarget(r: Request) returns (target: Option<bytes>)
    ensures target == Target(r)
  {
    if r.sessionId == "" || r.operation == "" { return None; }
    var id := UrlEncode(r.sessionId);
    var op := UrlEncode(r.operation);
    var t := SESSIONS + id + EVIDENCE + op;
    var separator: byte := '?';
    ghost var path := Path(r.sessionId, r.operation);
    if r.operation == "tail" {
      t, separator := AppendSize(t, separator, "lines", r.lines, path, []);
      assert [] + Optional("lines", r.lines) == Optional("lines", r.lines);
    } else if r.operation == "search" {
      if r.query.None? { return None; }
      t, separator := AppendQuery(t, separator, "query", r.query.value, path, []);
      assert [] + [Pair("query", Encoded(r.query.value))] == [Pair("query", Encoded(r.query.value))];
      t, separator := AppendSize(t, separator, "limit", r.limit, path, [Pair("query", Encoded(r.query.value))]);
    } else if r.operation == "range" {
      if r.revisionStart.None? || r.revisionEnd.None? { return None; }
      t, separator := AppendSize(t, separator, "start", r.revisionStart, path, []);
      assert [] + Optional("start", r.revisionStart) == Optional("start", r.revisionStart);
      t, separator := AppendSize(t, separator, "end", r.revisionEnd, path, Optional("start", r.revisionStart));
      t, separator := AppendSize(t, separator, "limit", r.limit, path,
                                 Optional("start", r.revisionStart) + Optional("end", r.revisionEnd));
    } else if r.operation == "context" {
      if r.revision.None? { return None; }
      t, separator := AppendSize(t, separator, "revision", r.revision, path, []);
      assert [] + Optional("revision", r.revision) == Optional("revision", r.revision);
      t, separator := AppendSize(t, separator, "before", r.before, path, Optional("revision", r.revision));
      t, separator := AppendSize(t, separator, "after", r.after, path,
                                 Optional("revision", r.revision) + Optional("before", r.before));
    } else {
      return None;
    }
    target := Some(t);
  }

  // ----- the server -----

  /** The calls on the session manager that an evidence request can lead to. */
  datatype Call =
    | TailCall(id: bytes, lines: nat)
    | SearchCall(id: bytes, query: bytes, limit: nat)
    | RangeCall(id: bytes, start: nat, end: nat, limit: nat)
    | ContextCall(id: bytes, revision: nat, before: nat, after: nat)

  datatype Response = OtherRoute | BadRequest | NotFound | Dispatched(call: Call, persist: bool, title: Option<bytes>)

  function ParseSizeQueryValue(target: bytes, key: bytes, default: nat): Option<nat> {
    var raw := QueryValue(target, key);
    if raw == "" then Some(default) else Stoull(raw)
  }

  function ParseRequiredRevisionQueryValue(target: bytes, key: bytes): Option<nat> {
    var raw := QueryValue(target, key);
    if raw == "" then None else Stoull(raw)
  }

  function Lower(s: bytes): bytes {
    seq(|s|, i requires 0 <= i < |s| => if 'A' <= s[i] <= 'Z' then s[i] + ' ' else s[i])
  }

  function ParseBoolQueryValue(target: bytes, key: bytes, default: bool): Option<bool> {
    var raw := Lower(QueryValue(target, key));
    if raw == "" then Some(default)
    else if raw == "true" || raw == "1" then Some(true)
    else if raw == "false" || raw == "0" then Some(false)
    else None
  }

  /** The stored title, if one is asked for; no result if it is malformed. */
  function ParseTitle(target: bytes): Option<Option<bytes>> {
    var raw := QueryValue(target, "title");
    if raw == "" then Some(None)
    else if Decoded(raw) == None || Decoded(raw) == Some("") then None
    else Some(Decoded(raw))
  }

  function ParseTail(id: bytes, target: bytes): Option<Call> {
    var lines := ParseSizeQueryValue(target, "lines", 200);
    if lines.None? then None else Some(TailCall(id, lines.value))
  }

  function ParseSearch(id: bytes, target: bytes): Option<Call> {
    var raw := QueryValue(target, "query");
    var limit := ParseSizeQueryValue(target, "limit", 200);
    if raw == "" || Decoded(raw).None? || limit.None? then None
    else Some(SearchCall(id, Decoded(raw).value, limit.value))
  }

  function ParseRange(id: bytes, target: bytes): Option<Call> {
    var start := ParseRequiredRevisionQueryValue(target, "start");
    var end := ParseRequiredRevisionQueryValue(target, "end");
    var limit := ParseSizeQueryValue(target, "limit", 200);
    if start.None? || end.None? || limit.None? then None
    else Some(RangeCall(id, start.value, end.value, limit.value))
  }

  function ParseContext(id: bytes, target: bytes): Option<Call> {
    var revision := ParseRequiredRevisionQueryValue(target, "revision");
    var before := ParseSizeQueryValue(target, "before", 80);
    var after := ParseSizeQueryValue(target, "after", 120);
    if revision.None? || before.None? || after.None? then None
    else Some(ContextCall(id, revision.value, before.value, after.value))
  }

  function ParseCall(id: bytes, operation: bytes, target: bytes): Option<Call> {
    if operation == "tail" then ParseTail(id, target)
    else if operation == "search" then ParseSearch(id, target)
    else if operation == "range" then ParseRange(id, target)
    else if operation == "context" then ParseContext(id, target)
    else None
  }

  predicate IsOperation(operation: bytes) {
    operation == "tail" || operation == "search" || operation == "range" || operation == "context"
  }

  function HandleEvidenceRequest(id: bytes, operation: bytes, target: bytes): Response {
    var persist, title := ParseBoolQueryValue(target, "persist", false), ParseTitle(target);
    if persist.None? || title.None? then BadRequest
    else if !IsOperation(operation) then NotFound
    else if ParseCall(id, operation, target).None? then BadRequest
    else Dispatched(ParseCall(id, operation, target).value, persist.value, title.value)
  }

  predicate EndsWith(s: bytes, suffix: bytes) { |s| >= |suffix| && s[|s| - |suffix|..] == suffix }

  /** The session id and operation of an evidence path.  Snapshot and file requests are recognised by
      their last segment before the evidence marker is looked for. */
  function Route(path: bytes): Option<(bytes, bytes)> {
    if |path| < |SESSIONS| || path[..|SESSIONS|] != SESSIONS then None
    else
      var remainder := path[|SESSIONS|..];
      if (|remainder| > |"/snapshot"| && EndsWith(remainder, "/snapshot")) ||
         (|remainder| > |"/file"| && EndsWith(remainder, "/file")) then None
      else
        var at := TextSearch.Find(remainder, EVIDENCE, 0);
        if at.None? then None else Some((remainder[..at.value], remainder[at.value + |EVIDENCE|..]))
  }

  /** A GET request, as far as evidence is concerned. */
  function HandleGet(target: bytes): Response {
    var route := Route(target[..IndexOf(target, '?')]);
    if route.None? then OtherRoute else HandleEvidenceRequest(route.value.0, route.value.1, target)
  }

  // ----- the round trip -----

  function OrElse(n: Option<nat>, default: nat): nat { if n.Some? then n.value else default }

  /** The call a request asks for, under a given session id. */
  function Meant(r: Request, id: bytes): Call
    requires Items(r).Some?
  {
    if r.operation == "tail" then TailCall(id, OrElse(r.lines, 200))
    else if r.operation == "search" then SearchCall(id, r.query.value, OrElse(r.limit, 200))
    else if r.operation == "range" then
      RangeCall(id, r.revisionStart.value, r.revisionEnd.value, OrElse(r.limit, 200))
    else ContextCall(id, r.revision.value, OrElse(r.before, 80), OrElse(r.after, 120))
  }

  /** The server splits the path where the command line joined it. */
  lemma {:induction false} PathSplits(id: bytes, operation: bytes)
    requires IsPlain(id) && IsOperation(operation)
    ensures Route(SESSIONS + id + EVIDENCE + operation) == Some((id, operation))
  {
    var remainder := id + EVIDENCE + operation;
    var path := SESSIONS + id + EVIDENCE + operation;
    assert path == SESSIONS + remainder && path[..|SESSIONS|] == SESSIONS && path[|SESSIONS|..] == remainder;
    NotASuffix(id + EVIDENCE, operation);
    MarkerFound(id, operation);
    assert remainder[..|id|] == id && remainder[|id| + |EVIDENCE|..] == operation;
  }

  lemma {:induction false} LastTwo(s: bytes, suffix: bytes)
    requires |suffix| >= 2 && EndsWith(s, suffix)
    ensures s[|s| - 1] == suffix[|suffix| - 1] && s[|s| - 2] == suffix[|suffix| - 2]
  {
    assert s == s[..|s| - |suffix|] + suffix;
  }

  lemma {:induction false} NotASuffix(front: bytes, operation: bytes)
    requires IsOperation(operation)
    ensures !EndsWith(front + operation, "/snapshot") && !EndsWith(front + operation, "/file")
  {
    var s := front + operation;
    assert s[|s| - 2] == operation[|operation| - 2] && s[|s| - 1] == operation[|operation| - 1];
    if EndsWith(s, "/snapshot") { LastTwo(s, "/snapshot"); }
    if EndsWith(s, "/file") { LastTwo(s, "/file"); }
  }

  lemma {:induction false} MarkerFound(id: bytes, operation: bytes)
    requires IsPlain(id)
    ensures TextSearch.Find(id + EVIDENCE + operation, EVIDENCE, 0) == Some(|id|)
  {
    var s := id + EVIDENCE + operation;
    assert s[|id|..|id| + |EVIDENCE|] == EVIDENCE;
    TextSearch.FindIsFirst(s, EVIDENCE, 0, |id|);
    var p := TextSearch.Find(s, EVIDENCE, 0).value;
    assert s[p] == s[p..p + |EVIDENCE|][0] == '/';
  }

  /** What a key is read as from a target with these items. */
  lemma {:induction false} ValueRead(path: bytes, pairs: Pairs, key: bytes)
    requires forall i :: 0 <= i < |path| ==> path[i] != '?'
    requires PlainPairs(pairs)
    ensures QueryValue(WithQuery(path, pairs), key) == FirstValue(pairs, key)
  {
    if pairs == [] {
      IndexOfAfter(path, '?', "");
      assert path + "" == path;
    } else {
      var t := path + "?" + Joined(pairs);
      assert t == path + ("?" + Joined(pairs));
      IndexOfAfter(path, '?', "?" + Joined(pairs));
      assert t[|path| + 1..] == Joined(pairs);
      LookupJoined(pairs, key);
    }
  }

  /** An optional number is read back, with the default where it was left out. */
  lemma {:induction false} SizeRead(path: bytes, pairs: Pairs, key: bytes, n: Option<nat>, default: nat)
    requires forall i :: 0 <= i < |path| ==> path[i] != '?'
    requires PlainPairs(pairs) && Fits(n) && FirstValue(pairs, key) == FirstValue(Optional(key, n), key)
    ensures ParseSizeQueryValue(WithQuery(path, pairs), key, default) == Some(OrElse(n, default))
    ensures n.Some? ==> ParseRequiredRevisionQueryValue(WithQuery(path, pairs), key) == n
  {
    ValueRead(path, pairs, key);
    if n.Some? {
      NumberOfToString(n.value);
      StoullOfToString(n.value);
    }
  }

  lemma {:induction false} OptionalIsPlain(key: bytes, n: Option<nat>)
    requires IsPlain(key)
    ensures PlainPairs(Optional(key, n))
  {
    if n.Some? { NumberOfToString(n.value); }
  }

  predicate Names(pairs: Pairs, key: bytes) { pairs != [] && (pairs[0].0 == key || Names(pairs[1..], key)) }

  lemma {:induction false} FirstValueAppend(a: Pairs, b: Pairs, key: bytes)
    ensures FirstValue(a + b, key) == FirstValue(if Names(a, key) then a else b, key)
    ensures Names(a + b, key) <==> Names(a, key) || Names(b, key)
    ensures !Names(a, key) ==> FirstValue(a, key) == ""
  {
    if a == [] {
      assert a + b == b;
    } else {
      assert (a + b)[1..] == a[1..] + b;
      FirstValueAppend(a[1..], b, key);
    }
  }

  lemma {:induction false} OptionalNames(key: bytes, n: Option<nat>, other: bytes)
    ensures Names(Optional(key, n), other) <==> n.Some? && key == other
  {
    if n.Some? { assert Optional(key, n)[0].0 == key; }
  }

  predicate NoQuestionMark(s: bytes) { forall i :: 0 <= i < |s| ==> s[i] != '?' }

  /** Two optional numbers after other items: what is read for a key. */
  lemma {:induction false} ReadTwo(front: Pairs, k1: bytes, n1: Option<nat>, k2: bytes, n2: Option<nat>, key: bytes)
    requires k1 != k2
    ensures var pairs := front + Optional(k1, n1) + Optional(k2, n2);
            && (Names(front, key) ==> FirstValue(pairs, key) == FirstValue(front, key))
            && (!Names(front, key) && key == k1 ==> FirstValue(pairs, key) == FirstValue(Optional(k1, n1), key))
            && (!Names(front, key) && key == k2 ==> FirstValue(pairs, key) == FirstValue(Optional(k2, n2), key))
            && (!Names(front, key) && key != k1 && key != k2 ==> FirstValue(pairs, key) == "")
  {
    FirstValueAppend(front + Optional(k1, n1), Optional(k2, n2), key);
    FirstValueAppend(front, Optional(k1, n1), key);
    FirstValueAppend(Optional(k1, n1), [], key);
    FirstValueAppend(Optional(k2, n2), [], key);
    assert Optional(k1, n1) + [] == Optional(k1, n1) && Optional(k2, n2) + [] == Optional(k2, n2);
    OptionalNames(k1, n1, key);
    OptionalNames(k2, n2, key);
  }

  lemma {:induction false} PlainAppend(a: Pairs, b: Pairs)
    requires PlainPairs(a) && PlainPairs(b)
    ensures PlainPairs(a + b)
  {}

  /** Two optional numbers after other items are read back, and so are the other items. */
  lemma {:induction false} TwoRead(
    path: bytes, front: Pairs, k1: bytes, n1: Option<nat>, d1: nat, k2: bytes, n2: Option<nat>, d2: nat)
    requires NoQuestionMark(path) && PlainPairs(front) && Fits(n1) && Fits(n2)
    requires IsPlain(k1) && IsPlain(k2) && k1 != k2 && !Names(front, k1) && !Names(front, k2)
    ensures var target := WithQuery(path, front + Optional(k1, n1) + Optional(k2, n2));
            && ParseSizeQueryValue(target, k1, d1) == Some(OrElse(n1, d1))
            && ParseSizeQueryValue(target, k2, d2) == Some(OrElse(n2, d2))
            && (n1.Some? ==> ParseRequiredRevisionQueryValue(target, k1) == n1)
            && (n2.Some? ==> ParseRequiredRevisionQueryValue(target, k2) == n2)
  {
    var pairs := front + Optional(k1, n1) + Optional(k2, n2);
    TwoPlain(front, k1, n1, k2, n2);
    ReadTwo(front, k1, n1, k2, n2, k1);
    ReadTwo(front, k1, n1, k2, n2, k2);
    SizeRead(path, pairs, k1, n1, d1);
    SizeRead(path, pairs, k2, n2, d2);
  }

  lemma {:induction false} TwoPlain(front: Pairs, k1: bytes, n1: Option<nat>, k2: bytes, n2: Option<nat>)
    requires PlainPairs(front) && IsPlain(k1) && IsPlain(k2)
    ensures PlainPairs(front + Optional(k1, n1) + Optional(k2, n2))
  {
    OptionalIsPlain(k1, n1);
    OptionalIsPlain(k2, n2);
    PlainAppend(front, Optional(k1, n1));
    PlainAppend(front + Optional(k1, n1), Optional(k2, n2));
  }

  /** A key that no item has reads as empty. */
  lemma {:induction false} OthersRead(
    path: bytes, front: Pairs, k1: bytes, n1: Option<nat>, k2: bytes, n2: Option<nat>, key: bytes)
    requires NoQuestionMark(path) && PlainPairs(front) && IsPlain(k1) && IsPlain(k2) && k1 != k2
    requires key != k1 && key != k2
    ensures QueryValue(WithQuery(path, front + Optional(k1, n1) + Optional(k2, n2)), key) == FirstValue(front, key)
  {
    TwoPlain(front, k1, n1, k2, n2);
    ReadTwo(front, k1, n1, k2, n2, key);
    FirstValueAppend(front, [], key);
    ValueRead(path, front + Optional(k1, n1) + Optional(k2, n2), key);
  }

  lemma {:induction false} TailRead(path: bytes, id: bytes, lines: Option<nat>)
    requires NoQuestionMark(path) && Fits(lines)
    ensures ParseTail(id, WithQuery(path, Optional("lines", lines))) == Some(TailCall(id, OrElse(lines, 200)))
  {
    assert [] + Optional("lines", lines) + Optional("limit", None) == Optional("lines", lines);
    TwoRead(path, [], "lines", lines, 200, "limit", None, 0);
  }

  lemma {:induction false} QueryRead(path: bytes, query: bytes, limit: Option<nat>)
    requires NoQuestionMark(path)
    ensures QueryValue(WithQuery(path, [Pair("query", Encoded(query))] + Optional("limit", limit)), "query")
         == Encoded(query)
  {
    var front := [Pair("query", Encoded(query))];
    EncodedIsPlain(query);
    OptionalIsPlain("limit", limit);
    PlainAppend(front, Optional("limit", limit));
    ValueRead(path, front + Optional("limit", limit), "query");
  }

  lemma {:induction false} LimitRead(path: bytes, value: bytes, limit: Option<nat>)
    requires NoQuestionMark(path) && Fits(limit) && IsPlain(value)
    ensures ParseSizeQueryValue(WithQuery(path, [Pair("query", value)] + Optional("limit", limit)), "limit", 200)
         == Some(OrElse(limit, 200))
  {
    var front := [Pair("query", value)];
    assert !Names(front[1..], "limit");
    assert front + Optional("limit", limit) + Optional("lines", None) == front + Optional("limit", limit);
    TwoRead(path, front, "limit", limit, 200, "lines", None, 0);
  }

  lemma {:induction false} SearchRead(path: bytes, id: bytes, query: bytes, limit: Option<nat>)
    requires NoQuestionMark(path) && Fits(limit)
    ensures ParseSearch(id, WithQuery(path, [Pair("query", Encoded(query))] + Optional("limit", limit)))
         == if query == "" then None else Some(SearchCall(id, query, OrElse(limit, 200)))
  {
    EncodedIsPlain(query);
    UrlRoundTrip(query);
    LimitRead(path, Encoded(query), limit);
    QueryRead(path, query, limit);
  }

  /** A required number before two optional ones. */
  lemma {:induction false} RequiredRead(
    path: bytes, k: bytes, n: nat, k1: bytes, n1: Option<nat>, k2: bytes, n2: Option<nat>)
    requires NoQuestionMark(path) && n < WORD && k != k1 && k != k2 && k1 != k2
    requires IsPlain(k) && IsPlain(k1) && IsPlain(k2)
    ensures var target := WithQuery(path, Optional(k, Some(n)) + Optional(k1, n1) + Optional(k2, n2));
            ParseRequiredRevisionQueryValue(target, k) == Some(n)
  {
    OptionalIsPlain(k, Some(n));
    OthersRead(path, Optional(k, Some(n)), k1, n1, k2, n2, k);
    NumberOfToString(n);
    StoullOfToString(n);
  }

  lemma {:induction false} RangeRead(path: bytes, id: bytes, start: nat, end: nat, limit: Option<nat>)
    requires NoQuestionMark(path) && start < WORD && end < WORD && Fits(limit)
    ensures var items := Optional("start", Some(start)) + Optional("end", Some(end)) + Optional("limit", limit);
            ParseRange(id, WithQuery(path, items)) == Some(RangeCall(id, start, end, OrElse(limit, 200)))
  {
    OptionalIsPlain("start", Some(start));
    RequiredRead(path, "start", start, "end", Some(end), "limit", limit);
    TwoRead(path, Optional("start", Some(start)), "end", Some(end), 0, "limit", limit, 200);
  }

  lemma {:induction false} ContextRead(path: bytes, id: bytes, revision: nat, before: Option<nat>, after: Option<nat>)
    requires NoQuestionMark(path) && revision < WORD && Fits(before) && Fits(after)
    ensures var items := Optional("revision", Some(revision)) + Optional("before", before) + Optional("after", after);
            ParseContext(id, WithQuery(path, items))
            == Some(ContextCall(id, revision, OrElse(before, 80), OrElse(after, 120)))
  {
    OptionalIsPlain("revision", Some(revision));
    RequiredRead(path, "revision", revision, "before", before, "after", after);
    TwoRead(path, Optional("revision", Some(revision)), "before", before, 80, "after", after, 120);
  }

  lemma {:induction false} CallRead(r: Request, path: bytes, id: bytes)
    requires IsRequest(r) && Items(r).Some? && NoQuestionMark(path)
    ensures ParseCall(id, r.operation, WithQuery(path, Items(r).value))
         == if r.operation == "search" && r.query.value == "" then None else Some(Meant(r, id))
  {
    if r.operation == "tail" { TailRead(path, id, r.lines); }
    else if r.operation == "search" { SearchRead(path, id, r.query.value, r.limit); }
    else if r.operation == "range" { RangeRead(path, id, r.revisionStart.value, r.revisionEnd.value, r.limit); }
    else { ContextRead(path, id, r.revision.value, r.before, r.after); }
  }

  /** None of the keys the command line writes. */
  predicate IsOtherKey(key: bytes) {
    && key != "lines" && key != "query" && key != "limit" && key != "start" && key != "end"
    && key != "revision" && key != "before" && key != "after"
  }

  lemma {:induction false} ItemsPlain(r: Request)
    requires Items(r).Some?
    ensures PlainPairs(Items(r).value)
  {
    if r.operation == "tail" {
      OptionalIsPlain("lines", r.lines);
    } else if r.operation == "search" {
      EncodedIsPlain(r.query.value);
      OptionalIsPlain("limit", r.limit);
      PlainAppend([Pair("query", Encoded(r.query.value))], Optional("limit", r.limit));
    } else if r.operation == "range" {
      OptionalIsPlain("start", r.revisionStart);
      TwoPlain(Optional("start", r.revisionStart), "end", r.revisionEnd, "limit", r.limit);
    } else {
      OptionalIsPlain("revision", r.revision);
      TwoPlain(Optional("revision", r.revision), "before", r.before, "after", r.after);
    }
  }

  lemma {:induction false} ThreeUnnamed(
    k0: bytes, n0: Option<nat>, k1: bytes, n1: Option<nat>, k2: bytes, n2: Option<nat>, key: bytes)
    requires key != k0 && key != k1 && key != k2
    ensures !Names(Optional(k0, n0) + Optional(k1, n1) + Optional(k2, n2), key)
  {
    FirstValueAppend(Optional(k0, n0) + Optional(k1, n1), Optional(k2, n2), key);
    FirstValueAppend(Optional(k0, n0), Optional(k1, n1), key);
  }

  lemma {:induction false} ItemsUnnamed(r: Request, key: bytes)
    requires Items(r).Some? && IsOtherKey(key)
    ensures !Names(Items(r).value, key)
  {
    if r.operation == "search" {
      FirstValueAppend([Pair("query", Encoded(r.query.value))], Optional("limit", r.limit), key);
    } else if r.operation == "range" {
      ThreeUnnamed("start", r.revisionStart, "end", r.revisionEnd, "limit", r.limit, key);
    } else if r.operation == "context" {
      ThreeUnnamed("revision", r.revision, "before", r.before, "after", r.after, key);
    }
  }

  lemma {:induction false} OtherKeyRead(r: Request, path: bytes, key: bytes)
    requires Items(r).Some? && NoQuestionMark(path) && IsOtherKey(key)
    ensures QueryValue(WithQuery(path, Items(r).value), key) == ""
  {
    ItemsPlain(r);
    ItemsUnnamed(r, key);
    FirstValueAppend(Items(r).value, [], key);
    ValueRead(path, Items(r).value, key);
  }

  /** The command line never asks for the evidence to be stored. */
  lemma {:induction false} StoringNotAsked(r: Request, path: bytes)
    requires Items(r).Some? && NoQuestionMark(path)
    ensures var target := WithQuery(path, Items(r).value);
            ParseBoolQueryValue(target, "persist", false) == Some(false) && ParseTitle(target) == Some(None)
  {
    OtherKeyRead(r, path, "persist");
    OtherKeyRead(r, path, "title");
  }

  lemma {:induction false} TargetRoutes(r: Request)
    requires Target(r).Some?
    ensures var target := Target(r).value;
            && Route(target[..IndexOf(target, '?')]) == Some((Encoded(r.sessionId), r.operation))
            && NoQuestionMark(Path(r.sessionId, r.operation))
  {
    EncodedIsPlain(r.sessionId);
    OperationUnchanged(r.operation);
    PathSplits(Encoded(r.sessionId), r.operation);
    PathHasNoQuestionMark(Encoded(r.sessionId), r.operation);
    CutAtQuery(Path(r.sessionId, r.operation), Items(r).value);
  }

  lemma {:induction false} OperationUnchanged(operation: bytes)
    requires IsOperation(operation)
    ensures Encoded(operation) == operation && IsPlain(operation)
  {
    EncodedUnchanged(operation);
  }

  lemma {:induction false} CutAtQuery(path: bytes, pairs: Pairs)
    requires NoQuestionMark(path)
    ensures var target := WithQuery(path, pairs); target[..IndexOf(target, '?')] == path
  {
    var query := if pairs == [] then "" else "?" + Joined(pairs);
    assert WithQuery(path, pairs) == path + query;
    IndexOfAfter(path, '?', query);
    assert (path + query)[..|path|] == path;
  }

  lemma {:induction false} PathHasNoQuestionMark(id: bytes, operation: bytes)
    requires IsPlain(id) && IsPlain(operation)
    ensures NoQuestionMark(SESSIONS + id + EVIDENCE + operation)
  {}

  /** What the server does with every target the command line builds: it dispatches the call meant,
      under the encoded session id, unless the search text is empty. */
  lemma {:induction false} ServerReads(r: Request)
    requires IsRequest(r) && Target(r).Some?
    ensures HandleGet(Target(r).value)
         == if r.operation == "search" && r.query.value == "" then BadRequest
            else Dispatched(Meant(r, Encoded(r.sessionId)), false, None)
  {
    TargetRoutes(r);
    CallRead(r, Path(r.sessionId, r.operation), Encoded(r.sessionId));
    StoringNotAsked(r, Path(r.sessionId, r.operation));
  }

  /** The server carries out exactly what was asked if and only if the session id needs no encoding and
      the search text, if any, is not empty. */
  lemma {:induction false} EvidenceRoundTrip(r: Request)
    requires IsRequest(r) && Target(r).Some?
    ensures HandleGet(Target(r).value) == Dispatched(Meant(r, r.sessionId), false, None)
       <==> AllUnreserved(r.sessionId) && (r.operation == "search" ==> r.query.value != "")
  {
    ServerReads(r);
    EncodedUnchanged(r.sessionId);
  }

  const SPACED_ID: bytes := "a b"
  const ESCAPED_ID: bytes := "a%20b"

  function TailRequest(id: bytes): Request { Request(id, "tail", None, None, None, None, None, None, None, None) }

  function EmptySearch(id: bytes): Request { Request(id, "search", None, Some(""), None, None, None, None, None, None) }

  /** Inputs on which it fails: an id with a space reaches the wrong session, and an empty search is
      refused. */
  lemma {:induction false} RequestsThatFail(id: bytes)
    requires id != ""
    ensures Target(TailRequest(SPACED_ID)).Some?
    ensures HandleGet(Target(TailRequest(SPACED_ID)).value) == Dispatched(TailCall(ESCAPED_ID, 200), false, None)
    ensures Target(EmptySearch(id)).Some? && HandleGet(Target(EmptySearch(id)).value) == BadRequest
  {
    ServerReads(TailRequest(SPACED_ID));
    SpaceEscaped();
    ServerReads(EmptySearch(id));
  }

  lemma {:induction false} SpaceEscaped()
    ensures Encoded(SPACED_ID) == ESCAPED_ID
  {
    var one: bytes := "b";
    var two: bytes := " b";
    assert one[1..] == "" && two[1..] == one && SPACED_ID[1..] == two;
    assert Encoded(one) == "b";
    assert Encoded(two) == "%20" + Encoded(one);
  }
}
