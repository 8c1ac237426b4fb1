/** What environment files mean, written down the other way round: from pieces of values and rows of a
    file to their text.  Reading such a text gives what was meant. */
module EnvGrammar {
  import opened Common
  import opened EnvFile

  // ----- values with references -----

  /** A character other than `$`, a reference in either form, or a `$` that refers to nothing. */
  datatype Piece = Char(c: char) | Braced(name: string) | Named(name: string) | Dollar

  function Source(p: Piece): (r: string)
    ensures r != ""
  {
    match p
    case Char(c) => [c]
    case Braced(name) => "${" + name + "}"
    case Named(name) => "$" + name
    case Dollar => "$"
  }

  /** The text of the pieces from piece `k` on. */
  function SourceFrom(ps: seq<Piece>, k: nat): string
    requires k <= |ps|
    decreases |ps| - k
  {
    if k == |ps| then "" else Source(ps[k]) + SourceFrom(ps, k + 1)
  }

  function SourceAll(ps: seq<Piece>): string { SourceFrom(ps, 0) }

  /** The piece ends where it should when this text follows it. */
  predicate Delimited(p: Piece, after: string) {
    match p
    case Char(c) => c != '$'
    case Braced(name) => Lacks(name, '}')
    case Named(name) => IsKey(name) && IsNameStart(name[0]) && (after == "" || !IsNameChar(after[0]))
    case Dollar => after == "" || (after[0] != '{' && !IsNameStart(after[0]))
  }

  predicate DelimitedAt(ps: seq<Piece>, k: nat)
    requires k < |ps|
  {
    Delimited(ps[k], SourceFrom(ps, k + 1))
  }

  predicate AllDelimited(ps: seq<Piece>) { forall k :: 0 <= k < |ps| ==> DelimitedAt(ps, k) }

  /** A reference means the value of its variable, or nothing if it has none. */
  function Meaning(p: Piece, env: Env): string {
    match p
    case Char(c) => [c]
    case Braced(name) => if name in env then env[name] else ""
    case Named(name) => if name in env then env[name] else ""
    case Dollar => "$"
  }

  function Glue(a: string, b: string): string { if a == "" then b else a + b }

  function MeaningFrom(ps: seq<Piece>, k: nat, env: Env): string
    requires k <= |ps|
    decreases |ps| - k
  {
    if k == |ps| then "" else Glue(Meaning(ps[k], env), MeaningFrom(ps, k + 1, env))
  }

  /** The meanings of all pieces, one after the other. */
  function MeaningAll(ps: seq<Piece>, env: Env): string { MeaningFrom(ps, 0, env) }

  lemma {:induction false} FindAt(s: string, c: char, i: nat, k: nat)
    requires i <= k <= |s| && (forall j :: i <= j < k ==> s[j] != c) && (k == |s| || s[k] == c)
    ensures PositionOf(s, c, i) == k
    decreases k - i
  {
    if i == k {
    } else {
      FindAt(s, c, i + 1, k);
    }
  }

  lemma {:induction false} NameEndAt(s: string, i: nat, k: nat)
    requires i <= k <= |s| && (forall j :: i <= j < k ==> IsNameChar(s[j])) && (k == |s| || !IsNameChar(s[k]))
    ensures NameEnd(s, i) == k
    decreases k - i
  {
    if i == k {
    } else {
      NameEndAt(s, i + 1, k);
    }
  }

  /** The text `t` stands at index `i` and goes on to the end. */
  predicate StandsAt(s: string, i: nat, t: string) { i <= |s| && s[i..] == t }

  lemma {:induction false} CharOf(s: string, i: nat, t: string, k: nat)
    requires StandsAt(s, i, t) && k < |t|
    ensures i + k < |s| && s[i + k] == t[k]
  {}

  lemma {:induction false} BracedExpands(s: string, i: nat, name: string, after: string, env: Env)
    requires Lacks(name, '}') && StandsAt(s, i, "${" + name + "}" + after)
    ensures Expansion(s, i, env) == (if name in env then env[name] else "", i + |name| + 3)
  {
    var t := "${" + name + "}" + after;
    var end := i + 2 + |name|;
    CharOf(s, i, t, 0);
    CharOf(s, i, t, 1);
    CharOf(s, i, t, |name| + 2);
    forall j | i + 2 <= j < end ensures s[j] == name[j - i - 2] { CharOf(s, i, t, j - i); }
    FindAt(s, '}', i + 2, end);
    assert s[i + 2..end] == name;
  }

  lemma {:induction false} NamedExpands(s: string, i: nat, name: string, after: string, env: Env)
    requires Delimited(Named(name), after) && StandsAt(s, i, "$" + name + after)
    ensures Expansion(s, i, env) == (if name in env then env[name] else "", i + |name| + 1)
  {
    var t := "$" + name + after;
    var end := i + 1 + |name|;
    CharOf(s, i, t, 0);
    forall j | i + 1 <= j < end ensures s[j] == name[j - i - 1] { CharOf(s, i, t, j - i); }
    if after != "" { CharOf(s, i, t, |name| + 1); }
    NameEndAt(s, i + 1, end);
    assert s[i + 1..end] == name;
  }

  lemma {:induction false} PieceExpands(s: string, i: nat, p: Piece, after: string, env: Env)
    requires Delimited(p, after) && StandsAt(s, i, Source(p) + after)
    ensures Expansion(s, i, env) == (Meaning(p, env), i + |Source(p)|)
  {
    var t := Source(p) + after;
    CharOf(s, i, t, 0);
    match p
    case Char(c) => assert t[0] == c;
    case Braced(name) => BracedExpands(s, i, name, after, env);
    case Named(name) => NamedExpands(s, i, name, after, env);
    case Dollar =>
      if after != "" { CharOf(s, i, t, 1); }
  }

  lemma {:induction false} StandsAfter(s: string, i: nat, a: string, b: string)
    requires StandsAt(s, i, a + b)
    ensures StandsAt(s, i + |a|, b)
  {
    assert s[i + |a|..] == s[i..][|a|..];
  }

  /** The output of a scan that puts out something at each place and says where to go on. */
  function Scanned(step: nat -> (string, nat), n: nat, i: nat): string
    decreases n - i
  {
    if i >= n || step(i).1 <= i then "" else Glue(step(i).0, Scanned(step, n, step(i).1))
  }

  /** The steps of the scan are those of expanding the text. */
  ghost predicate Expands(step: nat -> (string, nat), s: string, env: Env) {
    forall i: nat {:trigger Expansion(s, i, env)} :: i < |s| ==> step(i) == Expansion(s, i, env)
  }

  lemma {:induction false} ExpandedIsScanned(step: nat -> (string, nat), s: string, i: nat, env: Env)
    requires Expands(step, s, env) && i <= |s|
    ensures ExpandedFrom(s, i, env) == Scanned(step, |s|, i)
    decreases |s| - i
  {
    if i == |s| {
    } else {
      ExpandedIsScanned(step, s, Expansion(s, i, env).1, env);
    }
  }

  lemma {:induction false} StepAtPiece(
    step: nat -> (string, nat), s: string, i: nat, p: Piece, after: string, env: Env)
    requires Expands(step, s, env) && Delimited(p, after) && StandsAt(s, i, Source(p) + after)
    ensures i < |s| && step(i) == (Meaning(p, env), i + |Source(p)|)
  {
    PieceExpands(s, i, p, after, env);
  }

  lemma {:induction false} ScanStep(step: nat -> (string, nat), s: string, i: nat, ps: seq<Piece>, k: nat, env: Env)
    requires Expands(step, s, env) && k < |ps| && AllDelimited(ps) && StandsAt(s, i, SourceFrom(ps, k))
    ensures i + |Source(ps[k])| <= |s| && StandsAt(s, i + |Source(ps[k])|, SourceFrom(ps, k + 1))
    ensures step(i) == (Meaning(ps[k], env), i + |Source(ps[k])|)
  {
    var p, after := ps[k], SourceFrom(ps, k + 1);
    assert DelimitedAt(ps, k);
    StandsAfter(s, i, Source(p), after);
    StepAtPiece(step, s, i, p, after, env);
  }

  lemma {:induction false} ScanGlues(step: nat -> (string, nat), n: nat, i: nat, m: string, next: nat, rest: string)
    requires i < next <= n && step(i) == (m, next) && Scanned(step, n, next) == rest
    ensures Scanned(step, n, i) == Glue(m, rest)
  {}

  lemma {:induction false} ScanFrom(step: nat -> (string, nat), s: string, i: nat, ps: seq<Piece>, k: nat, env: Env)
    requires Expands(step, s, env) && k <= |ps| && AllDelimited(ps) && StandsAt(s, i, SourceFrom(ps, k))
    ensures Scanned(step, |s|, i) == MeaningFrom(ps, k, env)
    decreases |ps| - k
  {
    if k == |ps| {
    } else {
      var next := i + |Source(ps[k])|;
      ScanStep(step, s, i, ps, k, env);
      ScanFrom(step, s, next, ps, k + 1, env);
      ScanGlues(step, |s|, i, Meaning(ps[k], env), next, MeaningFrom(ps, k + 1, env));
    }
  }

  /** Expanding the text of any pieces gives the characters and the values referred to, in order. */
  lemma {:induction false} ExpansionLaw(ps: seq<Piece>, env: Env)
    requires AllDelimited(ps)
    ensures Expanded(SourceAll(ps), env) == MeaningAll(ps, env)
  {
    var s := SourceAll(ps);
    var step := (i: nat) => if i < |s| then Expansion(s, i, env) else ("", i);
    ExpandedIsScanned(step, s, 0, env);
    ScanFrom(step, s, 0, ps, 0, env);
  }

  // ----- double quotes -----

  /** Each double quote is preceded by a backslash. */
  function Escaped(s: string): string {
    if s == "" then "" else (if s[0] == '"' then "\\\"" else [s[0]]) + Escaped(s[1..])
  }

  lemma {:induction false} EscapedStarts(s: string)
    ensures Escaped(s) != "" ==> Escaped(s)[0] != '"'
  {}

  lemma {:induction false} UnescapeFrom(before: string, s: string)
    ensures UnescapedFrom(before + Escaped(s), |before|) == s
    decreases |s|
  {
    if s == "" {
      assert before + "" == before;
    } else {
      var first, rest := if s[0] == '"' then "\\\"" else [s[0]], Escaped(s[1..]);
      var all, n := before + Escaped(s), |before|;
      assert all == (before + first) + rest;
      assert all[n] == first[0] && (s[0] == '"' ==> all[n + 1] == '"');
      assert s[0] != '"' && rest != "" ==> all[n + 1] == rest[0];
      EscapedStarts(s[1..]);
      UnescapeFrom(before + first, s[1..]);
      assert s == [s[0]] + s[1..];
    }
  }

  lemma {:induction false} DoubleQuotedReads(s: string, env: Env)
    ensures Unquoted("\"" + Escaped(s) + "\"", env) == Expanded(s, env)
  {
    var raw := "\"" + Escaped(s) + "\"";
    assert raw[0] == '"' && raw[|raw| - 1] == '"' && Inner(raw) == Escaped(s);
    UnescapeFrom("", s);
    assert "" + Escaped(s) == Escaped(s);
  }

  // ----- bare values -----

  predicate Blanks(s: string) { forall i :: 0 <= i < |s| ==> IsBlank(s[i]) }

  /** Does not end in a blank or a carriage return. */
  predicate EndsVisibly(s: string) { s == "" || (!IsBlank(s[|s| - 1]) && s[|s| - 1] != '\r') }

  /** Neither a quote nor the beginning of a comment before index `n`. */
  predicate Uncommented(s: string, n: nat) {
    n <= |s| && forall i :: 0 <= i < n ==> s[i] != '\'' && s[i] != '"' && (s[i] == '#' && i > 0 ==> !IsBlank(s[i - 1]))
  }

  lemma {:induction false} CommentScan(s: string, i: nat, n: nat)
    requires i <= n && Uncommented(s, n)
    ensures CommentStart(s, i, false, false) == CommentStart(s, n, false, false)
    decreases n - i
  {
    if i == n {
    } else {
      CommentScan(s, i + 1, n);
    }
  }

  lemma {:induction false} BareReads(text: string, env: Env)
    requires Uncommented(text, |text|) && EndsVisibly(text)
    ensures Unquoted(text, env) == Expanded(text, env)
  {
    CommentScan(text, 0, |text|);
    assert text[..|text|] == text;
  }

  lemma {:induction false} CommentedReads(text: string, remark: string, env: Env)
    requires Uncommented(text, |text|) && EndsVisibly(text)
    ensures Unquoted(text + " #" + remark, env) == Expanded(text, env)
  {
    var raw, n := text + " #" + remark, |text|;
    assert raw[..n] == text && raw[n] == ' ' && raw[n + 1] == '#';
    assert Uncommented(raw, n + 1) by {
      assert forall i :: 0 <= i < n ==> raw[i] == text[i];
    }
    CommentScan(raw, 0, n + 1);
    assert CommentStart(raw, n + 1, false, false) == n + 1;
    assert n > 0 ==> raw[n - 1] == text[n - 1];
    assert TrimmedEnd(raw, 0, n) == n;
    assert TrimmedEnd(raw, 0, n + 1) == n;
  }

  // ----- values -----

  /** A value as it may be written: literally in single quotes, or as pieces in double quotes or bare, a
      bare one with or without a remark after it. */
  datatype Value =
    | Single(text: string)
    | Double(ps: seq<Piece>)
    | Bare(ps: seq<Piece>)
    | Remarked(ps: seq<Piece>, remark: string)

  function Raw(v: Value): string {
    match v
    case Single(text) => "'" + text + "'"
    case Double(ps) => "\"" + Escaped(SourceAll(ps)) + "\""
    case Bare(ps) => SourceAll(ps)
    case Remarked(ps, remark) => SourceAll(ps) + " #" + remark
  }

  predicate IsBare(ps: seq<Piece>) {
    AllDelimited(ps) && Uncommented(SourceAll(ps), |SourceAll(ps)|) && EndsVisibly(SourceAll(ps))
  }

  predicate IsValue(v: Value) {
    match v
    case Single(_) => true
    case Double(ps) => AllDelimited(ps)
    case Bare(ps) => IsBare(ps)
    case Remarked(ps, remark) => IsBare(ps) && EndsVisibly(remark)
  }

  function ValueMeaning(v: Value, env: Env): string {
    match v
    case Single(text) => text
    case Double(ps) => MeaningAll(ps, env)
    case Bare(ps) => MeaningAll(ps, env)
    case Remarked(ps, _) => MeaningAll(ps, env)
  }

  /** Every value reads as what it means in the environment of its line. */
  lemma {:induction false} ValueLaw(v: Value, env: Env)
    requires IsValue(v)
    ensures Unquoted(Raw(v), env) == ValueMeaning(v, env)
  {
    match v
    case Single(text) => QuotedIsLiteral(text, env);
    case Double(ps) =>
      DoubleQuotedReads(SourceAll(ps), env);
      ExpansionLaw(ps, env);
    case Bare(ps) =>
      BareReads(SourceAll(ps), env);
      ExpansionLaw(ps, env);
    case Remarked(ps, remark) =>
      CommentedReads(SourceAll(ps), remark, env);
      ExpansionLaw(ps, env);
  }

  // ----- rows -----

  /** What a row of a file says. */
  datatype Body =
    | Assign(exported: bool, key: string, value: Value)
    | Remark(text: string)
    | Malformed(text: string)
    | Nothing

  function Setting(key: string, value: Value): string { key + ("=" + Raw(value)) }

  function Core(b: Body): string {
    match b
    case Assign(exported, key, value) => if exported then EXPORT + Setting(key, value) else Setting(key, value)
    case Remark(text) => "#" + text
    case Malformed(text) => text
    case Nothing => ""
  }

  /** A body that is not empty begins and ends visibly. */
  predicate IsBody(b: Body) {
    match b
    case Assign(_, key, value) => IsKey(key) && IsValue(value)
    case Remark(text) => EndsVisibly(text)
    case Malformed(text) => text != "" && Lacks(text, '=') && !IsBlank(text[0]) && text[0] != '#' && EndsVisibly(text)
    case Nothing => true
  }

  /** What the row contributes. */
  function BodyMeaning(b: Body, env: Env): Option<Pair> {
    if b.Assign? then Some(Pair(b.key, ValueMeaning(b.value, env))) else None
  }

  /** A body indented, followed by blanks, and by a carriage return or not. */
  datatype Row = Row(lead: string, body: Body, trail: string, cr: bool)

  function RowText(r: Row): string { r.lead + (Core(r.body) + (r.trail + (if r.cr then "\r" else ""))) }

  predicate IsRow(r: Row) { Blanks(r.lead) && IsBody(r.body) && Blanks(r.trail) && Lacks(RowText(r), '\n') }

  lemma {:induction false} TrimStartAt(s: string, i: nat, k: nat, end: nat)
    requires i <= k <= end <= |s| && (forall j :: i <= j < k ==> IsBlank(s[j])) && (k == end || !IsBlank(s[k]))
    ensures TrimmedStart(s, i, end) == k
    decreases k - i
  {
    if i == k {
    } else {
      TrimStartAt(s, i + 1, k, end);
    }
  }

  lemma {:induction false} TrimEndAt(s: string, i: nat, k: nat, end: nat)
    requires i <= k <= end <= |s| && (forall j :: k <= j < end ==> IsBlank(s[j])) && (k == i || !IsBlank(s[k - 1]))
    ensures TrimmedEnd(s, i, end) == k
    decreases end - k
  {
    if end == k {
    } else {
      TrimEndAt(s, i, k, end - 1);
    }
  }

  /** Indentation, trailing blanks and a carriage return are dropped. */
  lemma {:induction false} ContentOf(lead: string, core: string, trail: string, cr: bool)
    requires Blanks(lead) && Blanks(trail) && EndsVisibly(core) && (core == "" || !IsBlank(core[0]))
    ensures Content(lead + (core + (trail + (if cr then "\r" else "")))) == core
  {
    var raw := lead + (core + (trail + (if cr then "\r" else "")));
    var a, b, end := |lead|, |lead| + |core|, |lead| + |core| + |trail|;
    assert forall j :: 0 <= j < a ==> raw[j] == lead[j];
    assert forall j :: a <= j < b ==> raw[j] == core[j - a];
    assert forall j :: b <= j < end ==> raw[j] == trail[j - b];
    assert cr ==> raw[end] == '\r';
    assert ContentEnd(raw) == end;
    if core == "" {
      TrimStartAt(raw, 0, end, end);
    } else {
      TrimStartAt(raw, 0, a, end);
      TrimEndAt(raw, a, b, end);
      assert raw[a..b] == core;
    }
  }

  lemma {:induction false} ExportedKey(key: string, raw: string)
    requires IsKey(key)
    ensures var line := EXPORT + (key + ("=" + raw));
            EqualsAt(line) == |EXPORT| + |key| && KeyOf(line) == key && line[|EXPORT| + |key| + 1..] == raw
  {
    var line, n := EXPORT + (key + ("=" + raw)), |EXPORT|;
    assert line[..n] == EXPORT && line[n] == key[0];
    TrimStartAt(line, n, n, |line|);
    assert line == EXPORT + key + ("=" + raw);
    FindAfter(EXPORT, key, '=', "=" + raw);
    assert line[n + |key| - 1] == key[|key| - 1];
    TrimEndAt(line, n, n + |key|, n + |key|);
    assert line[n..n + |key|] == key;
  }

  lemma {:induction false} ExportedReads(key: string, raw: string, env: Env)
    requires IsKey(key)
    ensures Assignment(EXPORT + (key + ("=" + raw)), env) == Some(Pair(key, Unquoted(raw, env)))
  {
    ExportedKey(key, raw);
  }

  lemma {:induction false} NoEquals(s: string, i: nat)
    requires i <= |s| && Lacks(s, '=')
    ensures PositionOf(s, '=', i) == |s|
    decreases |s| - i
  {
    if i == |s| {
    } else {
      NoEquals(s, i + 1);
    }
  }

  lemma {:induction false} RawEndsVisibly(v: Value)
    requires IsValue(v)
    ensures EndsVisibly(Raw(v))
  {}

  /** A body begins and ends visibly, so that trimming leaves it alone. */
  lemma {:induction false} CoreIsVisible(b: Body)
    requires IsBody(b)
    ensures EndsVisibly(Core(b)) && (Core(b) == "" || !IsBlank(Core(b)[0]))
  {
    if b.Assign? {
      var tail := "=" + Raw(b.value);
      RawEndsVisibly(b.value);
      assert EndsVisibly(tail);
      var core := Core(b);
      assert core[|core| - 1] == tail[|tail| - 1];
      assert core[0] == if b.exported then 'e' else b.key[0];
    }
  }

  lemma {:induction false} AssignReads(exported: bool, key: string, value: Value, env: Env)
    requires IsKey(key) && IsValue(value)
    ensures var core := Core(Assign(exported, key, value));
            core != "" && core[0] != '#' && Assignment(core, env) == Some(Pair(key, ValueMeaning(value, env)))
  {
    ValueLaw(value, env);
    if exported {
      ExportedReads(key, Raw(value), env);
      assert (EXPORT + Setting(key, value))[0] == 'e';
    } else {
      AssignmentOf(key, Raw(value), env);
      assert Setting(key, value)[0] == key[0];
    }
  }

  lemma {:induction false} BodyReads(b: Body, env: Env)
    requires IsBody(b)
    ensures var core := Core(b);
            (if core == "" || core[0] == '#' then None else Assignment(core, env)) == BodyMeaning(b, env)
  {
    match b
    case Assign(exported, key, value) => AssignReads(exported, key, value, env);
    case Malformed(text) => NoEquals(text, KeyStart(text));
    case _ =>
  }

  /** Every row reads as what it says. */
  lemma {:induction false} RowLaw(r: Row, env: Env)
    requires IsRow(r)
    ensures ParsedLine(RowText(r), env) == BodyMeaning(r.body, env)
  {
    CoreIsVisible(r.body);
    ContentOf(r.lead, Core(r.body), r.trail, r.cr);
    BodyReads(r.body, env);
  }

  // ----- files -----

  function Texts(rows: seq<Row>): seq<string> { seq(|rows|, i requires 0 <= i < |rows| => RowText(rows[i])) }

  /** The assignments of a file: each value in the environment as the assignments above have left it. */
  function FileMeaning(rows: seq<Row>, env: Env): Pairs {
    if rows == [] then []
    else if rows[0].body.Assign? then
      var p := Pair(rows[0].body.key, ValueMeaning(rows[0].body.value, env));
      [p] + FileMeaning(rows[1..], env[p.key := p.value])
    else FileMeaning(rows[1..], env)
  }

  lemma {:induction false} RowsRead(parse: LineParser, rows: seq<Row>, env: Env)
    requires forall i :: 0 <= i < |rows| ==> Lacks(RowText(rows[i]), '\n')
    requires forall i, e :: 0 <= i < |rows| ==> parse(RowText(rows[i]), e) == BodyMeaning(rows[i].body, e)
    requires forall e :: parse("", e) == None
    ensures EnvFile.Read(parse, Ended(Texts(rows)), env) == FileMeaning(rows, env)
    decreases |rows|
  {
    if rows == [] {
      assert parse("", env) == None && ""[..0] == "";
    } else {
      var rest := rows[1..];
      assert Texts(rows)[0] == RowText(rows[0]) && Texts(rows)[1..] == Texts(rest);
      FirstLine(parse, RowText(rows[0]), Ended(Texts(rest)), env);
      RowsRead(parse, rest, Updated(env, BodyMeaning(rows[0].body, env)));
    }
  }

  /** Any file of such rows reads as its assignments, in order, each with its references to the
      environment and to the assignments above it resolved. */
  lemma {:induction false} FileLaw(rows: seq<Row>, env: Env)
    requires forall i :: 0 <= i < |rows| ==> IsRow(rows[i])
    ensures Parsed(Ended(Texts(rows)), env) == FileMeaning(rows, env)
  {
    forall i, e | 0 <= i < |rows| ensures ParsedLine(RowText(rows[i]), e) == BodyMeaning(rows[i].body, e) {
      RowLaw(rows[i], e);
    }
    RowsRead(ParsedLine, rows, env);
  }
}
