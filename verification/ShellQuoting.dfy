/** Quoting of command lines handed to a shell, against a model of how a POSIX shell splits a simple
    command into words (sections 2.2.1 to 2.2.3 of the POSIX Shell Command Language). */
module ShellQuoting {
  import opened Common

  // ----- the shell's side -----

  datatype Mode = Plain | Single | Double

  /** Words read so far, and the current word if one has been started. */
  datatype Lexer = Lexer(words: seq<string>, current: Option<string>, mode: Mode)

  const START := Lexer([], None, Plain)

  predicate IsBlank(c: char) { c == ' ' || c == '\t' }

  /** Characters that mean something other than themselves when unquoted: operators, expansions,
      globs, comments, line ends. */
  predicate IsSpecial(c: char) {
    c in {'|', '&', ';', '<', '>', '(', ')', '$', '`', '*', '?', '[', '#', '~', '=', '%', '\n', '\r', '{', '}', '!'}
  }

  function Add(lx: Lexer, c: char): Lexer {
    lx.(current := Some((if lx.current.Some? then lx.current.value else "") + [c]))
  }

  /** Starting a quotation starts a word, even if nothing is quoted. */
  function Open(lx: Lexer, mode: Mode): Lexer {
    lx.(current := Some(if lx.current.Some? then lx.current.value else ""), mode := mode)
  }

  function EndWord(lx: Lexer): Lexer {
    if lx.current.Some? then lx.(words := lx.words + [lx.current.value], current := None) else lx
  }

  /** Reads the rest of a command line.  No result means that the line is not a simple command of
      literal words, is left open, or holds a NUL, which cannot be passed to a shell. */
  function Read(lx: Lexer, s: string): Option<seq<string>>
    decreases |s|
  {
    if s == "" then
      if lx.mode.Plain? then Some(EndWord(lx).words) else None
    else if s[0] == '\0' then None
    else
      var c, rest := s[0], s[1..];
      match lx.mode
      case Single => if c == '\'' then Read(lx.(mode := Plain), rest) else Read(Add(lx, c), rest)
      case Double =>
        if c == '"' then Read(lx.(mode := Plain), rest)
        else if c == '$' || c == '`' then None
        else if c == '\\' then
          if rest == "" || rest[0] == '\0' then None
          else if rest[0] == '\n' then Read(lx, rest[1..])
          else if rest[0] in {'$', '`', '"', '\\'} then Read(Add(lx, rest[0]), rest[1..])
          else Read(Add(lx, c), rest)
        else Read(Add(lx, c), rest)
      case Plain =>
        if c == '\'' then Read(Open(lx, Single), rest)
        else if c == '"' then Read(Open(lx, Double), rest)
        else if c == '\\' then
          if rest == "" || rest[0] == '\0' then None
          else if rest[0] == '\n' then Read(lx, rest[1..])
          else Read(Add(lx, rest[0]), rest[1..])
        else if IsBlank(c) then Read(EndWord(lx), rest)
        else if IsSpecial(c) then None
        else Read(Add(lx, c), rest)
  }

  function Words(command: string): Option<seq<string>> { Read(START, command) }

  // ----- the host's side -----

  /** How an embedded single quote is written: leave the quotation, quote it otherwise, re-enter. */
  function Escaped(s: string, quote: string): string {
    if s == "" then "" else (if s[0] == '\'' then quote else [s[0]]) + Escaped(s[1..], quote)
  }

  const DOUBLE_QUOTED := "'\"'\"'"
  const BACKSLASHED := "'\\''"

  function Quoted(s: string, quote: string): string { "'" + Escaped(s, quote) + "'" }

  method ShellQuote(value: string) returns (quoted: string)
    ensures quoted == Quoted(value, DOUBLE_QUOTED)
  {
    quoted := "'";
    for i := 0 to |value|
      invariant quoted + Escaped(value[i..], DOUBLE_QUOTED) == "'" + Escaped(value, DOUBLE_QUOTED)
    {
      EscapedStep(value, i, DOUBLE_QUOTED);
      if value[i] == '\'' {
        quoted := quoted + "'\"'\"'";
        continue;
      }
      quoted := quoted + [value[i]];
    }
    quoted := quoted + "'";
  }

  method ShellEscapeSingleQuoted(value: string) returns (quoted: string)
    ensures quoted == Quoted(value, BACKSLASHED)
  {
    quoted := "'";
    for i := 0 to |value|
      invariant quoted + Escaped(value[i..], BACKSLASHED) == "'" + Escaped(value, BACKSLASHED)
    {
      EscapedStep(value, i, BACKSLASHED);
      if value[i] == '\'' {
        quoted := quoted + "'\\''";
        continue;
      }
      quoted := quoted + [value[i]];
    }
    quoted := quoted + "'";
  }

  lemma {:induction false} EscapedStep(s: string, i: nat, quote: string)
    requires i < |s|
    ensures Escaped(s[i..], quote) == (if s[i] == '\'' then quote else [s[i]]) + Escaped(s[i + 1..], quote)
  {
    assert s[i..][1..] == s[i + 1..];
  }

  function Arguments(args: seq<string>): string {
    if args == [] then "" else " " + Quoted(args[0], DOUBLE_QUOTED) + Arguments(args[1..])
  }

  lemma {:induction false} ArgumentsStep(command: string, args: seq<string>, i: nat)
    requires i < |args|
    ensures command + Arguments(args[i..])
         == command + " " + Quoted(args[i], DOUBLE_QUOTED) + Arguments(args[i + 1..])
  {
    assert args[i..][1..] == args[i + 1..];
  }

  method BuildShellExecCommand(executable: string, args: seq<string>) returns (command: string)
    ensures command == "exec " + Quoted(executable, DOUBLE_QUOTED) + Arguments(args)
    ensures Words(command)
         == if NulFree(executable) && AllNulFree(args) then Some(["exec", executable] + args) else None
  {
    ExecCommandRoundTrip(executable, args);
    var q := ShellQuote(executable);
    command := "exec " + q;
    ghost var whole := command + Arguments(args);
    for i := 0 to |args|
      invariant command + Arguments(args[i..]) == whole
    {
      q := ShellQuote(args[i]);
      ArgumentsStep(command, args, i);
      command := command + " " + q;
    }
  }

  // ----- round trip -----

  predicate NulFree(s: string) { forall i :: 0 <= i < |s| ==> s[i] != '\0' }

  predicate AllNulFree(ss: seq<string>) { forall i :: 0 <= i < |ss| ==> NulFree(ss[i]) }

  /** Inside single quotes with `w` already read of the current word. */
  function Inside(words: seq<string>, w: string): Lexer { Lexer(words, Some(w), Single) }

  function Outside(words: seq<string>, w: string): Lexer { Lexer(words, Some(w), Plain) }

  lemma {:induction false} ReadOne(lx: Lexer, c: char, t: string)
    requires c != '\0' && c != '\\'
    ensures Read(lx, [c] + t) ==
      match lx.mode {
        case Single => if c == '\'' then Read(lx.(mode := Plain), t) else Read(Add(lx, c), t)
        case Double =>
          if c == '"' then Read(lx.(mode := Plain), t)
          else if c == '$' || c == '`' then None else Read(Add(lx, c), t)
        case Plain =>
          if c == '\'' then Read(Open(lx, Single), t)
          else if c == '"' then Read(Open(lx, Double), t)
          else if IsBlank(c) then Read(EndWord(lx), t)
          else if IsSpecial(c) then None
          else Read(Add(lx, c), t)
      }
  {
    assert ([c] + t)[1..] == t;
  }

  /** Both ways of writing a single quote add exactly that character to the word. */
  lemma {:induction false} ReadDoubleQuotedQuote(words: seq<string>, w: string, t: string)
    ensures Read(Inside(words, w), DOUBLE_QUOTED + t) == Read(Inside(words, w + "'"), t)
  {
    var t4 := ['\''] + t;
    var t3 := ['"'] + t4;
    var t2 := ['\''] + t3;
    var t1 := ['"'] + t2;
    assert DOUBLE_QUOTED + t == ['\''] + t1;
    ReadOne(Inside(words, w), '\'', t1);
    ReadOne(Outside(words, w), '"', t2);
    ReadOne(Lexer(words, Some(w), Double), '\'', t3);
    ReadOne(Lexer(words, Some(w + "'"), Double), '"', t4);
    ReadOne(Outside(words, w + "'"), '\'', t);
  }

  lemma {:induction false} ReadBackslashedQuote(words: seq<string>, w: string, t: string)
    ensures Read(Inside(words, w), BACKSLASHED + t) == Read(Inside(words, w + "'"), t)
  {
    var t3 := ['\''] + t;
    var t1 := ['\\', '\''] + t3;
    assert BACKSLASHED + t == ['\''] + t1;
    ReadOne(Inside(words, w), '\'', t1);
    assert t1[1..][1..] == t3;
    assert Read(Outside(words, w), t1) == Read(Outside(words, w + "'"), t3);
    ReadOne(Outside(words, w + "'"), '\'', t);
  }

  lemma {:induction false} ReadEscaped(words: seq<string>, w: string, s: string, quote: string, t: string)
    requires quote == DOUBLE_QUOTED || quote == BACKSLASHED
    ensures Read(Inside(words, w), Escaped(s, quote) + (['\''] + t))
         == if NulFree(s) then Read(Outside(words, w + s), t) else None
    decreases |s|
  {
    if s == "" {
      assert Escaped(s, quote) + (['\''] + t) == ['\''] + t && w + s == w;
      ReadOne(Inside(words, w), '\'', t);
    } else {
      var rest := Escaped(s[1..], quote) + (['\''] + t);
      assert NulFree(s) <==> s[0] != '\0' && NulFree(s[1..]);
      assert w + [s[0]] + s[1..] == w + s;
      if s[0] == '\'' {
        assert Escaped(s, quote) + (['\''] + t) == quote + rest;
        if quote == DOUBLE_QUOTED {
          ReadDoubleQuotedQuote(words, w, rest);
        } else {
          ReadBackslashedQuote(words, w, rest);
        }
        ReadEscaped(words, w + "'", s[1..], quote, t);
      } else {
        assert Escaped(s, quote) + (['\''] + t) == [s[0]] + rest;
        ReadInside(words, w, s[0], rest);
        if s[0] != '\0' { ReadEscaped(words, w + [s[0]], s[1..], quote, t); }
      }
    }
  }

  lemma {:induction false} ReadInside(words: seq<string>, w: string, c: char, t: string)
    requires c != '\''
    ensures Read(Inside(words, w), [c] + t) == if c == '\0' then None else Read(Inside(words, w + [c]), t)
  {
    assert ([c] + t)[1..] == t;
  }

  /** A quoted string reads as one word: itself. */
  lemma {:induction false} ReadQuoted(words: seq<string>, s: string, quote: string, t: string)
    requires quote == DOUBLE_QUOTED || quote == BACKSLASHED
    ensures Read(Lexer(words, None, Plain), Quoted(s, quote) + t)
         == if NulFree(s) then Read(Outside(words, s), t) else None
  {
    var body := Escaped(s, quote) + (['\''] + t);
    assert Quoted(s, quote) + t == ['\''] + body;
    ReadOne(Lexer(words, None, Plain), '\'', body);
    ReadEscaped(words, "", s, quote, t);
    assert "" + s == s;
  }

  /** Both quoting functions of the host denote the string they were given, for every NUL-free
      string and no other. */
  lemma {:induction false} BothQuotingsDenote(s: string)
    ensures Words(Quoted(s, DOUBLE_QUOTED)) == Words(Quoted(s, BACKSLASHED))
    ensures Words(Quoted(s, DOUBLE_QUOTED)) == if NulFree(s) then Some([s]) else None
  {
    ReadQuoted([], s, DOUBLE_QUOTED, "");
    ReadQuoted([], s, BACKSLASHED, "");
    assert Quoted(s, DOUBLE_QUOTED) + "" == Quoted(s, DOUBLE_QUOTED);
    assert Quoted(s, BACKSLASHED) + "" == Quoted(s, BACKSLASHED);
    assert [] + [s] == [s];
  }

  lemma {:induction false} ReadArguments(words: seq<string>, w: string, args: seq<string>)
    ensures Read(Outside(words, w), Arguments(args)) == if AllNulFree(args) then Some(words + [w] + args) else None
    decreases |args|
  {
    if args == [] {
      assert words + [w] + args == words + [w];
    } else {
      var rest := Arguments(args[1..]);
      assert Arguments(args) == [' '] + (Quoted(args[0], DOUBLE_QUOTED) + rest);
      ReadOne(Outside(words, w), ' ', Quoted(args[0], DOUBLE_QUOTED) + rest);
      ReadQuoted(words + [w], args[0], DOUBLE_QUOTED, rest);
      assert AllNulFree(args) <==> NulFree(args[0]) && AllNulFree(args[1..]) by {
        assert forall i :: 0 < i < |args| ==> args[i] == args[1..][i - 1];
      }
      if NulFree(args[0]) { ReadArguments(words + [w], args[0], args[1..]); }
      assert words + [w] + [args[0]] + args[1..] == words + [w] + args;
    }
  }

  predicate IsOrdinary(c: char) {
    c !in {'\0', '\\', '\'', '"'} && !IsBlank(c) && !IsSpecial(c)
  }

  lemma {:induction false} ReadOrdinary(words: seq<string>, w: string, s: string, t: string)
    requires forall i :: 0 <= i < |s| ==> IsOrdinary(s[i])
    ensures Read(Outside(words, w), s + t) == Read(Outside(words, w + s), t)
    decreases |s|
  {
    if s == "" {
      assert s + t == t && w + s == w;
    } else {
      assert s + t == [s[0]] + (s[1..] + t);
      ReadOne(Outside(words, w), s[0], s[1..] + t);
      ReadOrdinary(words, w + [s[0]], s[1..], t);
      assert w + [s[0]] + s[1..] == w + s;
    }
  }

  lemma {:induction false} ReadExec(t: string)
    ensures Read(START, "exec " + t) == Read(Lexer(["exec"], None, Plain), t)
  {
    var t1 := "xec" + ([' '] + t);
    assert "exec " + t == ['e'] + t1;
    ReadOne(START, 'e', t1);
    ReadOrdinary([], "" + ['e'], "xec", [' '] + t);
    assert "" + ['e'] + "xec" == "exec";
    ReadOne(Outside([], "exec"), ' ', t);
    assert [] + ["exec"] == ["exec"];
  }

  /** The shell reads the generated command as `exec`, the executable and the arguments, for all
      NUL-free strings and for no others. */
  lemma {:induction false} ExecCommandRoundTrip(executable: string, args: seq<string>)
    ensures Words("exec " + Quoted(executable, DOUBLE_QUOTED) + Arguments(args))
         == if NulFree(executable) && AllNulFree(args) then Some(["exec", executable] + args) else None
  {
    var t := Quoted(executable, DOUBLE_QUOTED) + Arguments(args);
    assert "exec " + Quoted(executable, DOUBLE_QUOTED) + Arguments(args) == "exec " + t;
    ReadExec(t);
    ReadQuoted(["exec"], executable, DOUBLE_QUOTED, Arguments(args));
    ReadArguments(["exec"], executable, args);
    assert ["exec"] + [executable] + args == ["exec", executable] + args;
  }
}
