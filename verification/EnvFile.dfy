/** Environment files: lines of `KEY=value` with quoting, comments and references to other variables. */
module EnvFile {
  import opened Common

  type Env = map<string, string>

  datatype Pair = Pair(key: string, value: string)

  type Pairs = seq<Pair>

  // ----- positions: every part of a line is a range of it -----

  /** The first index of `c` at or after `i`, or the length. */
  function PositionOf(s: string, c: char, i: nat): (r: nat)
    requires i <= |s|
    ensures i <= r <= |s|
    decreases |s| - i
  {
    if i < |s| && s[i] != c then PositionOf(s, c, i + 1) else i
  }

  method FindPosition(s: string, c: char, start: nat) returns (i: nat)
    requires start <= |s|
    ensures i == PositionOf(s, c, start)
  {
    i := start;
    while i < |s| && s[i] != c
      invariant i <= |s| && PositionOf(s, c, i) == PositionOf(s, c, start)
    {
      i := i + 1;
    }
  }

  predicate IsBlank(c: char) { c == ' ' || c == '\t' }

  /** Where the range `i..end` starts once blanks on the left are trimmed. */
  function TrimmedStart(s: string, i: nat, end: nat): (r: nat)
    requires i <= end <= |s|
    ensures i <= r <= end
    decreases end - i
  {
    if i < end && IsBlank(s[i]) then TrimmedStart(s, i + 1, end) else i
  }

  /** Where the range `i..end` ends once blanks on the right are trimmed. */
  function TrimmedEnd(s: string, i: nat, end: nat): (r: nat)
    requires i <= end <= |s|
    ensures i <= r <= end
    decreases end - i
  {
    if i < end && IsBlank(s[end - 1]) then TrimmedEnd(s, i, end - 1) else end
  }

  method TrimLeft(s: string, i: nat, end: nat) returns (start: nat)
    requires i <= end <= |s|
    ensures start == TrimmedStart(s, i, end)
  {
    start := i;
    while start < end && IsBlank(s[start])
      invariant i <= start <= end && TrimmedStart(s, start, end) == TrimmedStart(s, i, end)
    {
      start := start + 1;
    }
  }

  method TrimRight(s: string, i: nat, stop: nat) returns (end: nat)
    requires i <= stop <= |s|
    ensures end == TrimmedEnd(s, i, stop)
  {
    end := stop;
    while end > i && IsBlank(s[end - 1])
      invariant i <= end <= stop && TrimmedEnd(s, i, end) == TrimmedEnd(s, i, stop)
    {
      end := end - 1;
    }
  }

  // ----- comments -----

  /** Where an unquoted comment starts, or the length. */
  function CommentStart(s: string, i: nat, inSingle: bool, inDouble: bool): (r: nat)
    requires i <= |s|
    ensures i <= r <= |s|
    decreases |s| - i
  {
    if i == |s| then i
    else if s[i] == '\'' && !inDouble then CommentStart(s, i + 1, !inSingle, inDouble)
    else if s[i] == '"' && !inSingle then CommentStart(s, i + 1, inSingle, !inDouble)
    else if s[i] == '#' && !inSingle && !inDouble && i > 0 && IsBlank(s[i - 1]) then i
    else CommentStart(s, i + 1, inSingle, inDouble)
  }

  /** The end of what is left once the comment is gone. */
  function StrippedEnd(s: string): (r: nat)
    ensures r <= |s|
  {
    var i := CommentStart(s, 0, false, false);
    if i < |s| then TrimmedEnd(s, 0, i) else i
  }

  method StripInlineComment(s: string) returns (end: nat)
    ensures end == StrippedEnd(s)
  {
    var inSingle, inDouble := false, false;
    for i := 0 to |s|
      invariant CommentStart(s, i, inSingle, inDouble) == CommentStart(s, 0, false, false)
    {
      var ch := s[i];
      if ch == '\'' && !inDouble {
        inSingle := !inSingle;
      } else if ch == '"' && !inSingle {
        inDouble := !inDouble;
      } else if ch == '#' && !inSingle && !inDouble {
        if i > 0 && IsBlank(s[i - 1]) {
          end := TrimRight(s, 0, i);
          return;
        }
      }
    }
    end := |s|;
  }

  // ----- variables -----

  predicate IsNameStart(c: char) { 'A' <= c <= 'Z' || 'a' <= c <= 'z' || c == '_' }

  predicate IsNameChar(c: char) { IsNameStart(c) || '0' <= c <= '9' }

  function NameEnd(s: string, i: nat): (r: nat)
    requires i <= |s|
    ensures i <= r <= |s|
    ensures i < |s| && IsNameChar(s[i]) ==> i < r
    decreases |s| - i
  {
    if i < |s| && IsNameChar(s[i]) then NameEnd(s, i + 1) else i
  }

  function Value(env: Env, name: string): string { if name in env then env[name] else "" }

  /** What is put out at index `i`, and where to go on. */
  function Expansion(s: string, i: nat, env: Env): (r: (string, nat))
    requires i < |s|
    ensures i < r.1 <= |s|
  {
    if s[i] != '$' then ([s[i]], i + 1)
    else if i + 1 == |s| then ("$", i + 1)
    else if s[i + 1] == '{' then
      var end := PositionOf(s, '}', i + 2);
      (Value(env, s[i + 2..end]), if end < |s| then end + 1 else end)
    else if IsNameStart(s[i + 1]) then (Value(env, s[i + 1..NameEnd(s, i + 1)]), NameEnd(s, i + 1))
    else ("$", i + 1)
  }

  function ExpandedFrom(s: string, i: nat, env: Env): string
    requires i <= |s|
    decreases |s| - i
  {
    if i == |s| then ""
    else
      var (piece, next) := Expansion(s, i, env);
      if piece == "" then ExpandedFrom(s, next, env) else piece + ExpandedFrom(s, next, env)
  }

  function Expanded(s: string, env: Env): string { ExpandedFrom(s, 0, env) }

  method FindNameEnd(s: string, start: nat) returns (i: nat)
    requires start <= |s|
    ensures i == NameEnd(s, start)
  {
    i := start;
    while i < |s| && IsNameChar(s[i])
      invariant i <= |s| && NameEnd(s, i) == NameEnd(s, start)
    {
      i := i + 1;
    }
  }

  method ExpandOne(s: string, start: nat, env: Env) returns (piece: string, i: nat)
    requires start < |s|
    ensures (piece, i) == Expansion(s, start, env)
  {
    i := start;
    piece := "";
    if s[i] != '$' { return [s[i]], i + 1; }
    i := i + 1;
    if i >= |s| { return "$", i; }
    if s[i] == '{' {
      i := FindPosition(s, '}', start + 2);
      var name := s[start + 2..i];
      if i < |s| { i := i + 1; }
      if name in env { piece := env[name]; }
    } else if IsNameStart(s[i]) {
      i := FindNameEnd(s, start + 1);
      var name := s[start + 1..i];
      if name in env { piece := env[name]; }
    } else {
      piece := "$";
    }
  }

  method ExpandVars(s: string, env: Env) returns (result: string)
    ensures result == Expanded(s, env)
  {
    result := "";
    var i := 0;
    while i < |s|
      invariant i <= |s| && result + ExpandedFrom(s, i, env) == Expanded(s, env)
      decreases |s| - i
    {
      var piece, next := ExpandOne(s, i, env);
      Join(result, piece, ExpandedFrom(s, next, env));
      if piece != "" { result := result + piece; }
      i := next;
    }
    assert result + "" == result;
  }

  // ----- quoting -----

  /** The text with each escaped double quote from index `i` on made plain. */
  function UnescapedFrom(s: string, i: nat): string
    requires i <= |s|
    decreases |s| - i
  {
    if i == |s| then ""
    else if s[i] == '\\' && i + 1 < |s| && s[i + 1] == '"' then "\"" + UnescapedFrom(s, i + 2)
    else [s[i]] + UnescapedFrom(s, i + 1)
  }

  predicate QuotedWith(raw: string, q: char) { |raw| >= 2 && raw[0] == q && raw[|raw| - 1] == q }

  function Inner(raw: string): string
    requires |raw| >= 2
  {
    raw[1..|raw| - 1]
  }

  function Unquoted(raw: string, env: Env): string {
    if QuotedWith(raw, '\'') then Inner(raw)
    else if QuotedWith(raw, '"') then Expanded(UnescapedFrom(Inner(raw), 0), env)
    else Expanded(raw[..TrimmedEnd(raw, 0, StrippedEnd(raw))], env)
  }

  method UnquoteValue(raw: string, env: Env) returns (value: string)
    ensures value == Unquoted(raw, env)
  {
    if raw == "" { return ""; }
    if raw[0] == '\'' && raw[|raw| - 1] == '\'' && |raw| >= 2 { return raw[1..|raw| - 1]; }
    if raw[0] == '"' && raw[|raw| - 1] == '"' && |raw| >= 2 {
      var inner := raw[1..|raw| - 1];
      var unescaped: string := "";
      var i := 0;
      while i < |inner|
        invariant i <= |inner| && unescaped + UnescapedFrom(inner, i) == UnescapedFrom(inner, 0)
        decreases |inner| - i
      {
        if inner[i] == '\\' && i + 1 < |inner| && inner[i + 1] == '"' {
          Join(unescaped, "\"", UnescapedFrom(inner, i + 2));
          unescaped := unescaped + "\"";
          i := i + 2;
        } else {
          Join(unescaped, [inner[i]], UnescapedFrom(inner, i + 1));
          unescaped := unescaped + [inner[i]];
          i := i + 1;
        }
      }
      assert unescaped + "" == unescaped;
      value := ExpandVars(unescaped, env);
      return;
    }
    var stripped := StripInlineComment(raw);
    var trimmed := TrimRight(raw, 0, stripped);
    value := ExpandVars(raw[..trimmed], env);
  }

  // ----- lines and files -----

  const EXPORT: string := "export "

  predicate IsKey(key: string) { key != "" && forall i :: 0 <= i < |key| ==> IsNameChar(key[i]) }

  /** The range of a line without its carriage return and surrounding blanks. */
  function ContentEnd(raw: string): (r: nat)
    ensures r <= |raw|
  {
    if raw != "" && raw[|raw| - 1] == '\r' then |raw| - 1 else |raw|
  }

  function Content(raw: string): string {
    var start := TrimmedStart(raw, 0, ContentEnd(raw));
    raw[start..TrimmedEnd(raw, start, ContentEnd(raw))]
  }

  predicate HasExport(line: string) { |line| >= |EXPORT| && line[..|EXPORT|] == EXPORT }

  /** Where the key starts. */
  function KeyStart(line: string): (r: nat)
    ensures r <= |line|
  {
    if HasExport(line) then TrimmedStart(line, |EXPORT|, |line|) else 0
  }

  function EqualsAt(line: string): (r: nat)
    ensures KeyStart(line) <= r <= |line|
  {
    PositionOf(line, '=', KeyStart(line))
  }

  function KeyOf(line: string): string {
    line[KeyStart(line)..TrimmedEnd(line, KeyStart(line), EqualsAt(line))]
  }

  /** The key and value of an assignment. */
  function Assignment(line: string, env: Env): Option<Pair> {
    var eq := EqualsAt(line);
    if eq == |line| || !IsKey(KeyOf(line)) then None else Some(Pair(KeyOf(line), Unquoted(line[eq + 1..], env)))
  }

  function ParsedLine(raw: string, env: Env): Option<Pair> {
    var line := Content(raw);
    if line == "" || line[0] == '#' then None else Assignment(line, env)
  }

  type LineParser = (string, Env) -> Option<Pair>

  /** The assignments in a text, for any way to read a line; each line sees the ones before it. */
  function Read(parse: LineParser, text: string, env: Env): Pairs
    decreases |text|
  {
    var end := PositionOf(text, '\n', 0);
    var p := parse(text[..end], env);
    WithFirst(p, if end == |text| then [] else Read(parse, text[end + 1..], Updated(env, p)))
  }

  function Updated(env: Env, p: Option<Pair>): Env { if p.None? then env else env[p.value.key := p.value.value] }

  function WithFirst(p: Option<Pair>, rest: Pairs): Pairs { if p.None? then rest else [p.value] + rest }

  function Parsed(content: string, env: Env): Pairs { Read(ParsedLine, content, env) }

  method TrimLine(raw: string) returns (line: string)
    ensures line == Content(raw)
  {
    var end: nat := |raw|;
    if raw != "" && raw[|raw| - 1] == '\r' { end := end - 1; }
    var start := TrimLeft(raw, 0, end);
    end := TrimRight(raw, start, end);
    line := raw[start..end];
  }

  method IsValidKey(key: string) returns (valid: bool)
    ensures valid <==> IsKey(key)
  {
    if key == "" { return false; }
    for i := 0 to |key|
      invariant forall k :: 0 <= k < i ==> IsNameChar(key[k])
    {
      if !IsNameChar(key[i]) { return false; }
    }
    valid := true;
  }

  method SplitAtEquals(line: string) returns (key: string, eq: nat)
    ensures key == KeyOf(line) && eq == EqualsAt(line)
  {
    var start := 0;
    if |line| >= |EXPORT| && line[..|EXPORT|] == EXPORT { start := TrimLeft(line, |EXPORT|, |line|); }
    eq := FindPosition(line, '=', start);
    var end := TrimRight(line, start, eq);
    key := line[start..end];
  }

  method ParseAssignment(line: string, env: Env) returns (p: Option<Pair>)
    ensures p == Assignment(line, env)
  {
    var key, eq := SplitAtEquals(line);
    if eq == |line| { return None; }
    var valid := IsValidKey(key);
    if !valid { return None; }
    var value := UnquoteValue(line[eq + 1..], env);
    p := Some(Pair(key, value));
  }

  method ParseLine(raw: string, env: Env) returns (p: Option<Pair>)
    ensures p == ParsedLine(raw, env)
  {
    var line := TrimLine(raw);
    if line == "" || line[0] == '#' { return None; }
    p := ParseAssignment(line, env);
  }

  ghost predicate Reads(parse: LineParser) {
    forall raw, env {:trigger ParsedLine(raw, env)} :: parse(raw, env) == ParsedLine(raw, env)
  }

  method ReadLine(ghost parse: LineParser, raw: string, env: Env) returns (p: Option<Pair>)
    requires Reads(parse)
    ensures p == parse(raw, env)
  {
    p := ParseLine(raw, env);
  }

  /** What is read from position `pos` on; nothing past the end. */
  function ReadFrom(parse: LineParser, content: string, pos: nat, env: Env): Pairs {
    if pos <= |content| then Read(parse, content[pos..], env) else []
  }

  lemma {:induction false} ReadStep(parse: LineParser, content: string, pos: nat, end: nat, env: Env, p: Option<Pair>)
    requires pos <= |content| && end == PositionOf(content, '\n', pos) && p == parse(content[pos..end], env)
    ensures ReadFrom(parse, content, pos, env) == WithFirst(p, ReadFrom(parse, content, end + 1, Updated(env, p)))
  {
    FindInSuffix(content, '\n', pos, pos);
    assert content[pos..][..end - pos] == content[pos..end];
    if end < |content| { assert content[pos..][end - pos + 1..] == content[end + 1..]; }
  }

  lemma {:induction false} FindInSuffix(s: string, c: char, pos: nat, i: nat)
    requires pos <= i <= |s|
    ensures pos + PositionOf(s[pos..], c, i - pos) == PositionOf(s, c, i)
    decreases |s| - i
  {
    if i >= |s| || s[i] == c {
    } else {
      FindInSuffix(s, c, pos, i + 1);
    }
  }

  /** The result so far, and what is still to be read, make up the whole. */
  ghost predicate Remaining(result: Pairs, rest: Pairs, all: Pairs) {
    |result| <= |all| && result == all[..|result|] && rest == all[|result|..]
  }

  lemma {:induction false} RemainingStep(result: Pairs, p: Pair, rest: Pairs, all: Pairs)
    requires Remaining(result, [p] + rest, all)
    ensures Remaining(result + [p], rest, all)
  {
    var n := |result|;
    assert all[n] == all[n..][0] == p;
    assert all[n + 1..] == all[n..][1..] == rest;
  }

  /** One turn of the parse loop. */
  method ParseNext(
    ghost parse: LineParser, content: string, pos: nat, accumulated: Env, result: Pairs, ghost all: Pairs)
    returns (next: nat, env: Env, pairs: Pairs)
    requires Reads(parse) && pos <= |content|
    requires Remaining(result, ReadFrom(parse, content, pos, accumulated), all)
    ensures pos < next <= |content| + 1
    ensures Remaining(pairs, ReadFrom(parse, content, next, env), all)
  {
    var end := FindPosition(content, '\n', pos);
    var p := ReadLine(parse, content[pos..end], accumulated);
    ReadStep(parse, content, pos, end, accumulated, p);
    next, pairs, env := end + 1, result, accumulated;
    if p.Some? {
      env := accumulated[p.value.key := p.value.value];
      RemainingStep(result, p.value, ReadFrom(parse, content, next, env), all);
      pairs := result + [p.value];
    }
  }

  method ParseLines(ghost parse: LineParser, content: string, currentEnv: Env) returns (result: Pairs)
    requires Reads(parse)
    ensures result == Read(parse, content, currentEnv)
  {
    result := [];
    var accumulated := currentEnv;
    var pos := 0;
    assert content[0..] == content;
    ghost var all := Read(parse, content, currentEnv);
    while pos <= |content|
      invariant 0 <= pos <= |content| + 1
      invariant Remaining(result, ReadFrom(parse, content, pos, accumulated), all)
      decreases |content| + 1 - pos
    {
      pos, accumulated, result := ParseNext(parse, content, pos, accumulated, result, all);
    }
  }

  method ParseEnvFile(content: string, currentEnv: Env) returns (result: Pairs)
    ensures result == Parsed(content, currentEnv)
  {
    result := ParseLines(ParsedLine, content, currentEnv);
  }

  // ----- writing a file that reads back -----

  const QUOTE: char := '\''

  function Line(p: Pair): string { p.key + "='" + p.value + "'" }

  /** Lines, each ended by a line feed. */
  function Ended(lines: seq<string>): string { if lines == [] then "" else lines[0] + ("\n" + Ended(lines[1..])) }

  function Lines(pairs: Pairs): seq<string> { seq(|pairs|, i requires 0 <= i < |pairs| => Line(pairs[i])) }

  /** One `KEY='value'` line per pair. */
  function Written(pairs: Pairs): string { Ended(Lines(pairs)) }

  predicate Lacks(s: string, c: char) { forall i :: 0 <= i < |s| ==> s[i] != c }

  predicate KeysValid(pairs: Pairs) { forall i :: 0 <= i < |pairs| ==> IsKey(pairs[i].key) }

  predicate OneLineEach(pairs: Pairs) { forall i :: 0 <= i < |pairs| ==> Lacks(pairs[i].value, '\n') }

  lemma {:induction false} FindAfter(before: string, a: string, c: char, rest: string)
    requires Lacks(a, c) && rest != "" && rest[0] == c
    ensures PositionOf(before + a + rest, c, |before|) == |before| + |a|
    decreases |a|
  {
    var s := before + a + rest;
    if a == "" {
      assert s[|before|] == rest[0];
    } else {
      assert s[|before|] == a[0];
      assert s == (before + [a[0]]) + a[1..] + rest;
      FindAfter(before + [a[0]], a[1..], c, rest);
    }
  }

  lemma {:induction false} NoExport(key: string, rest: string)
    requires IsKey(key) && rest != "" && rest[0] == '='
    ensures !HasExport(key + rest)
  {
    var line := key + rest;
    if |line| >= |EXPORT| {
      var start := line[..|EXPORT|];
      if |key| >= |EXPORT| {
        assert start[6] == line[6] == key[6] != EXPORT[6];
      } else {
        assert start[|key|] == line[|key|] == '=' != EXPORT[|key|];
      }
    }
  }

  lemma {:induction false} KeyFound(key: string, raw: string)
    requires IsKey(key)
    ensures var line := key + ("=" + raw);
            EqualsAt(line) == |key| && KeyOf(line) == key && line[|key| + 1..] == raw
  {
    var line := key + ("=" + raw);
    NoExport(key, "=" + raw);
    FindAfter("", key, '=', "=" + raw);
    assert "" + key + ("=" + raw) == line;
    assert line[|key| - 1] == key[|key| - 1];
    assert line[0..|key|] == key && line[|key| + 1..] == raw;
  }

  lemma {:induction false} AssignmentOf(key: string, raw: string, env: Env)
    requires IsKey(key)
    ensures Assignment(key + ("=" + raw), env) == Some(Pair(key, Unquoted(raw, env)))
  {
    KeyFound(key, raw);
  }

  /** A line with no blank at either end and no carriage return is not trimmed. */
  lemma {:induction false} NotTrimmed(line: string)
    requires line != "" && !IsBlank(line[0]) && !IsBlank(line[|line| - 1]) && line[|line| - 1] != '\r'
    ensures Content(line) == line
  {
    assert line[0..|line|] == line;
  }

  lemma {:induction false} QuotedIsLiteral(value: string, env: Env)
    ensures Unquoted("'" + value + "'", env) == value
  {
    assert Inner("'" + value + "'") == value;
  }

  lemma {:induction false} LineParts(p: Pair)
    requires IsKey(p.key)
    ensures Line(p) == p.key + ("=" + ("'" + p.value + "'"))
    ensures Content(Line(p)) == Line(p) && Line(p) != "" && Line(p)[0] != '#'
  {
    assert Line(p)[0] == p.key[0];
    NotTrimmed(Line(p));
  }

  lemma {:induction false} LineReadsBack(p: Pair, env: Env)
    requires IsKey(p.key)
    ensures ParsedLine(Line(p), env) == Some(p)
  {
    LineParts(p);
    AssignmentOf(p.key, "'" + p.value + "'", env);
    QuotedIsLiteral(p.value, env);
  }

  lemma {:induction false} LineFound(line: string, rest: string)
    requires Lacks(line, '\n')
    ensures var text := line + ("\n" + rest);
            PositionOf(text, '\n', 0) == |line| && text[..|line|] == line && text[|line| + 1..] == rest
  {
    var text := line + ("\n" + rest);
    FindAfter("", line, '\n', "\n" + rest);
    assert "" + line + ("\n" + rest) == text;
  }

  lemma {:induction false} FirstLine(parse: LineParser, line: string, rest: string, env: Env)
    requires Lacks(line, '\n')
    ensures Read(parse, line + ("\n" + rest), env)
         == WithFirst(parse(line, env), Read(parse, rest, Updated(env, parse(line, env))))
  {
    LineFound(line, rest);
  }

  /** Each line is read as its pair, whatever the environment. */
  ghost predicate AllRead(parse: LineParser, lines: seq<string>, pairs: Pairs) {
    && |lines| == |pairs|
    && forall i, env :: 0 <= i < |lines| ==> parse(lines[i], env) == Some(pairs[i])
  }

  predicate AllLack(lines: seq<string>, c: char) { forall i :: 0 <= i < |lines| ==> Lacks(lines[i], c) }

  lemma {:induction false} ReadsBack(parse: LineParser, lines: seq<string>, pairs: Pairs, env: Env)
    requires AllRead(parse, lines, pairs) && AllLack(lines, '\n') && forall e :: parse("", e) == None
    ensures Read(parse, Ended(lines), env) == pairs
    decreases |lines|
  {
    if lines == [] {
      assert parse("", env) == None && ""[..0] == "";
    } else {
      var line, p, rest := lines[0], pairs[0], pairs[1..];
      assert pairs == [p] + rest;
      assert parse(line, env) == Some(p);
      FirstLine(parse, line, Ended(lines[1..]), env);
      ReadsBack(parse, lines[1..], rest, env[p.key := p.value]);
    }
  }

  // ----- a value of several lines does not read back -----

  /** The part of a value on the line of its key. */
  function FirstPart(value: string): string { value[..PositionOf(value, '\n', 0)] }

  lemma {:induction false} FindStops(s: string, c: char, i: nat)
    requires i <= |s|
    ensures var r := PositionOf(s, c, i); (r < |s| ==> s[r] == c) && forall k :: i <= k < r ==> s[k] != c
    decreases |s| - i
  {
    if i >= |s| || s[i] == c {
    } else {
      FindStops(s, c, i + 1);
    }
  }

  lemma {:induction false} TrimStops(s: string, i: nat, end: nat, k: nat)
    requires i <= k < end <= |s| && !IsBlank(s[k])
    ensures TrimmedEnd(s, i, end) > k
    ensures TrimmedEnd(s, i, end) < end ==> IsBlank(s[TrimmedEnd(s, i, end)])
    decreases end - i
  {
    if !IsBlank(s[end - 1]) {
    } else {
      TrimStops(s, i, end - 1, k);
    }
  }

  /** The first `k` characters from `i` on are quotes. */
  predicate Quotes(s: string, i: nat, k: nat) { i + k <= |s| && forall j :: i <= j < i + k ==> s[j] == QUOTE }

  lemma {:induction false} QuotesKept(s: string, i: nat, k: nat, env: Env)
    requires Quotes(s, i, k)
    ensures Quotes(ExpandedFrom(s, i, env), 0, k)
    decreases k
  {
    if k == 0 {
    } else {
      QuotesKept(s, i + 1, k - 1, env);
      var rest := ExpandedFrom(s, i + 1, env);
      assert Expansion(s, i, env) == ([QUOTE], i + 1);
      assert ExpandedFrom(s, i, env) == [QUOTE] + rest;
    }
  }

  lemma {:induction false} CommentAfterQuotes(s: string, i: nat, k: nat, inSingle: bool)
    requires Quotes(s, i, k)
    ensures CommentStart(s, i, inSingle, false) >= i + k
    decreases k
  {
    if k == 0 {
    } else {
      CommentAfterQuotes(s, i + 1, k - 1, !inSingle);
    }
  }

  /** An opening quote that is not closed is kept, so the value gains a quote. */
  lemma {:induction false} QuotesGained(raw: string, k: nat, env: Env)
    requires Quotes(raw, 0, k) && k > 0 && !QuotedWith(raw, QUOTE)
    ensures Quotes(Unquoted(raw, env), 0, k)
  {
    CommentAfterQuotes(raw, 0, k, false);
    var end := CommentStart(raw, 0, false, false);
    TrimStops(raw, 0, end, k - 1);
    TrimStops(raw, 0, StrippedEnd(raw), k - 1);
    var kept := raw[..TrimmedEnd(raw, 0, StrippedEnd(raw))];
    assert Quotes(kept, 0, k);
    QuotesKept(kept, 0, k, env);
  }

  function LeadingQuotes(s: string): (k: nat)
    ensures k <= |s|
  {
    if s != "" && s[0] == QUOTE then 1 + LeadingQuotes(s[1..]) else 0
  }

  lemma {:induction false} LeadingQuotesStop(s: string)
    ensures var k := LeadingQuotes(s); Quotes(s, 0, k) && (k < |s| ==> s[k] != QUOTE)
  {
    if s == "" || s[0] != QUOTE {
    } else {
      LeadingQuotesStop(s[1..]);
      assert forall j :: 0 < j < |s| ==> s[j] == s[1..][j - 1];
    }
  }

  /** Reading a quote and a proper beginning of a value never gives that value, if the beginning is not
      followed by a quote. */
  lemma {:induction false} BeginningDiffers(value: string, part: string, env: Env)
    requires |part| < |value| && value[..|part|] == part && value[|part|] != QUOTE
    ensures Unquoted("'" + part, env) != value
  {
    var raw := "'" + part;
    if QuotedWith(raw, QUOTE) {
      assert |Inner(raw)| < |value|;
    } else {
      var k := LeadingQuotes(part);
      LeadingQuotesStop(part);
      assert Quotes(raw, 0, k + 1);
      QuotesGained(raw, k + 1, env);
      assert Unquoted(raw, env)[k] == QUOTE;
      assert k < |part| ==> value[k] == part[k];
    }
  }

  /** Where the beginning of a line ends once trimmed: before a character that is no quote. */
  lemma {:induction false} TrimmedBeginning(p: Pair) returns (n: nat)
    requires IsKey(p.key) && !Lacks(p.value, '\n')
    ensures n < |p.value| && p.value[n] != QUOTE
    ensures Content(p.key + ("='" + FirstPart(p.value))) == p.key + ("=" + ("'" + p.value[..n]))
  {
    var part := FirstPart(p.value);
    FindStops(p.value, '\n', 0);
    var raw, k := p.key + ("='" + part), |p.key| + 1;
    assert raw[0] == p.key[0] && raw[k] == QUOTE;
    var stop := ContentEnd(raw);
    TrimStops(raw, 0, stop, k);
    var end := TrimmedEnd(raw, 0, stop);
    n := end - k - 1;
    assert n < |part| ==> raw[end] == p.value[n];
    Beginning(p.key, part, n);
    assert part[..n] == p.value[..n];
  }

  lemma {:induction false} Beginning(key: string, part: string, n: nat)
    requires n <= |part|
    ensures (key + ("='" + part))[0..|key| + 2 + n] == key + ("=" + ("'" + part[..n]))
  {}

  /** A key whose value goes on over the next line is read with another value. */
  lemma {:induction false} FirstPartMisread(p: Pair, env: Env)
    requires IsKey(p.key) && !Lacks(p.value, '\n')
    ensures var q := ParsedLine(p.key + ("='" + FirstPart(p.value)), env); q.Some? && q.value != p
  {
    var n := TrimmedBeginning(p);
    var part := p.value[..n];
    var line := p.key + ("=" + ("'" + part));
    assert line[0] == p.key[0];
    AssignmentOf(p.key, "'" + part, env);
    BeginningDiffers(p.value, part, env);
  }

  /** Some line of several is read as something other than its pair. */
  ghost predicate Misreads(parse: LineParser, pairs: Pairs) {
    forall i, env :: 0 <= i < |pairs| && !Lacks(pairs[i].value, '\n')
      ==> MisreadAs(parse, pairs[i], env)
  }

  ghost predicate MisreadAs(parse: LineParser, p: Pair, env: Env) {
    var q := parse(p.key + ("='" + FirstPart(p.value)), env);
    q.Some? && q.value != p
  }

  /** The first line of a pair, and what comes after it in the file. */
  lemma {:induction false} FirstLineOf(p: Pair, after: string) returns (rest: string)
    requires !Lacks(p.value, '\n')
    ensures Line(p) + after == p.key + ("='" + FirstPart(p.value)) + ("\n" + rest)
    ensures Lacks(FirstPart(p.value), '\n')
  {
    FindStops(p.value, '\n', 0);
    var n := PositionOf(p.value, '\n', 0);
    var tail := p.value[n + 1..];
    assert p.value == FirstPart(p.value) + ("\n" + tail);
    rest := tail + ("'" + after);
    Regroup(p.key, FirstPart(p.value), tail, after);
  }

  lemma {:induction false} Regroup(key: string, part: string, tail: string, after: string)
    ensures key + "='" + (part + ("\n" + tail)) + "'" + after == key + ("='" + part) + ("\n" + (tail + ("'" + after)))
  {}

  lemma {:induction false} DoesNotReadBack(parse: LineParser, pairs: Pairs, env: Env)
    requires KeysValid(pairs) && !OneLineEach(pairs) && Misreads(parse, pairs)
    requires forall p: Pair, e :: IsKey(p.key) && Lacks(p.value, '\n') ==> parse(Line(p), e) == Some(p)
    ensures Read(parse, Written(pairs), env) != pairs
    decreases |pairs|
  {
    var p, rest := pairs[0], Lines(pairs)[1..];
    assert Lines(pairs)[0] == Line(p);
    if Lacks(p.value, '\n') {
      assert Lacks(Line(p), '\n');
      assert parse(Line(p), env) == Some(p);
      FirstLine(parse, Line(p), Ended(rest), env);
      assert Lines(pairs[1..]) == rest;
      DoesNotReadBack(parse, pairs[1..], env[p.key := p.value]);
    } else {
      var head := p.key + ("='" + FirstPart(p.value));
      var after := FirstLineOf(p, "\n" + Ended(rest));
      assert MisreadAs(parse, pairs[0], env);
      FirstLine(parse, head, after, env);
    }
  }

  /** Pairs with valid keys, written one per line in single quotes, read back as they were, whatever the
      environment, if and only if no value contains a line feed. */
  lemma {:induction false} EnvFileRoundTrip(pairs: Pairs, env: Env)
    requires KeysValid(pairs)
    ensures Parsed(Written(pairs), env) == pairs <==> OneLineEach(pairs)
  {
    forall p: Pair, e | IsKey(p.key) ensures ParsedLine(Line(p), e) == Some(p) { LineReadsBack(p, e); }
    if OneLineEach(pairs) {
      forall i | 0 <= i < |pairs| ensures Lacks(Lines(pairs)[i], '\n') {}
      ReadsBack(ParsedLine, Lines(pairs), pairs, env);
    } else {
      forall i, e | 0 <= i < |pairs| && !Lacks(pairs[i].value, '\n') ensures MisreadAs(ParsedLine, pairs[i], e) {
        FirstPartMisread(pairs[i], e);
      }
      DoesNotReadBack(ParsedLine, pairs, env);
    }
  }
}
