/** Splitting a log stream into lines: what the lines of a whole byte stream are, and an incremental
    splitter that finds the same lines from arbitrary chunks. */
module LineSplitting {
  import opened Common

  // ----- the lines of a whole stream -----

  /** The text after the last newline. */
  function Rest(s: string): string {
    if s == "" then ""
    else if s[|s| - 1] == '\n' then ""
    else Rest(s[..|s| - 1]) + [s[|s| - 1]]
  }

  /** The newline-terminated pieces, without their newlines. */
  function Pieces(s: string): seq<string> {
    if s == "" then []
    else if s[|s| - 1] == '\n' then Pieces(s[..|s| - 1]) + [Rest(s[..|s| - 1])]
    else Pieces(s[..|s| - 1])
  }

  function EndsWithCr(s: string): bool { s != "" && s[|s| - 1] == '\r' }

  function AfterLastCr(s: string): string {
    if s == "" || EndsWithCr(s) then "" else AfterLastCr(s[..|s| - 1]) + [s[|s| - 1]]
  }

  /** How a piece is shown: one trailing carriage return belongs to the terminator; any other
      carriage return restarts the line. */
  function Shown(piece: string): string {
    AfterLastCr(if EndsWithCr(piece) then piece[..|piece| - 1] else piece)
  }

  function ShownAll(pieces: seq<string>): seq<string> {
    seq(|pieces|, i requires 0 <= i < |pieces| => Shown(pieces[i]))
  }

  /** The pieces put back together. */
  function Unsplit(pieces: seq<string>): string {
    if pieces == [] then "" else Unsplit(pieces[..|pieces| - 1]) + pieces[|pieces| - 1] + "\n"
  }

  predicate Free(s: string, c: char) { forall i :: 0 <= i < |s| ==> s[i] != c }

  lemma {:induction false} UnsplitSnoc(pieces: seq<string>, p: string)
    ensures Unsplit(pieces + [p]) == Unsplit(pieces) + p + "\n"
  {
    assert (pieces + [p])[..|pieces|] == pieces;
  }

  /** `Pieces` and `Rest` really split the stream at its newlines: they rebuild it and contain no
      newline themselves. */
  lemma {:induction false} PiecesSplitTheStream(s: string)
    ensures s == Unsplit(Pieces(s)) + Rest(s)
    ensures Free(Rest(s), '\n')
    ensures forall i :: 0 <= i < |Pieces(s)| ==> Free(Pieces(s)[i], '\n')
  {
    PiecesRebuild(s);
    PiecesAreFree(s);
  }

  lemma {:induction false} PiecesRebuild(s: string)
    ensures s == Unsplit(Pieces(s)) + Rest(s)
  {
    if s != "" {
      var t, last := s[..|s| - 1], [s[|s| - 1]];
      PiecesRebuild(t);
      assert s == t + last;
      if s[|s| - 1] == '\n' {
        UnsplitSnoc(Pieces(t), Rest(t));
      } else {
        Join(Unsplit(Pieces(t)), Rest(t), last);
      }
    }
  }

  lemma {:induction false} PiecesAreFree(s: string)
    ensures Free(Rest(s), '\n')
    ensures forall i :: 0 <= i < |Pieces(s)| ==> Free(Pieces(s)[i], '\n')
  {
    if s == "" {
    } else {
      PiecesAreFree(s[..|s| - 1]);
    }
  }

  /** `Shown` is the part of the piece after its last inner carriage return. */
  lemma {:induction false} AfterLastCrIsSuffix(s: string)
    ensures |AfterLastCr(s)| <= |s| && AfterLastCr(s) == s[|s| - |AfterLastCr(s)|..]
    ensures Free(AfterLastCr(s), '\r')
    ensures |AfterLastCr(s)| < |s| ==> s[|s| - |AfterLastCr(s)| - 1] == '\r'
    ensures Free(s, '\n') ==> Free(AfterLastCr(s), '\n')
  {
    if s == "" || EndsWithCr(s) {
    } else {
      AfterLastCrIsSuffix(s[..|s| - 1]);
    }
  }

  // ----- the incremental splitter -----

  /** One stream's unfinished line; `pendingCr` says that the last byte was a carriage return whose
      meaning depends on the next byte. */
  datatype Splitter = Splitter(partial: string, pendingCr: bool, stamp: int)

  /** One byte: the new splitter, and the line it completes if any. */
  function Feed(sp: Splitter, ch: char, now: int): (Splitter, Option<string>) {
    if ch == '\n' then (Splitter("", false, 0), Some(sp.partial))
    else
      var cur := if sp.pendingCr then Splitter("", false, now) else sp;
      if ch == '\r' then (cur.(pendingCr := true), None)
      else (cur.(partial := cur.partial + [ch]), None)
  }

  /** The state a stream must be in after the bytes `s`, whatever the chunks were. */
  ghost predicate Tracks(sp: Splitter, s: string) {
    sp.partial == Shown(Rest(s)) && sp.pendingCr == EndsWithCr(Rest(s))
  }

  lemma {:induction false} AfterLastCrSnoc(t: string, ch: char)
    ensures AfterLastCr(t + [ch]) == if ch == '\r' then "" else AfterLastCr(t) + [ch]
  {
    assert (t + [ch])[..|t|] == t;
  }

  lemma {:induction false} ShownSnoc(t: string, ch: char)
    requires ch != '\n'
    ensures Shown(t + [ch]) ==
      (var cur := if EndsWithCr(t) then "" else Shown(t);
       if ch == '\r' then cur else cur + [ch])
  {
    AfterLastCrSnoc(t, ch);
    if ch == '\r' {
      assert (t + [ch])[..|t|] == t;
    }
    if EndsWithCr(t) {
      assert t == t[..|t| - 1] + ['\r'];
      AfterLastCrSnoc(t[..|t| - 1], '\r');
    }
  }

  lemma {:induction false} RestSnoc(s: string, ch: char)
    ensures Rest(s + [ch]) == if ch == '\n' then "" else Rest(s) + [ch]
    ensures Pieces(s + [ch]) == if ch == '\n' then Pieces(s) + [Rest(s)] else Pieces(s)
  {
    assert (s + [ch])[..|s|] == s;
  }

  /** One byte keeps the splitter in step with the stream, and completes exactly the line the stream
      completes. */
  lemma {:induction false} FeedTracks(sp: Splitter, s: string, ch: char, now: int)
    requires Tracks(sp, s)
    ensures Tracks(Feed(sp, ch, now).0, s + [ch])
    ensures Feed(sp, ch, now).1 == (if ch == '\n' then Some(Shown(Rest(s))) else None)
  {
    RestSnoc(s, ch);
    if ch != '\n' { ShownSnoc(Rest(s), ch); }
  }

  lemma {:induction false} PartialIsClean(sp: Splitter, s: string)
    requires Tracks(sp, s)
    ensures Free(sp.partial, '\r') && Free(sp.partial, '\n')
  {
    PiecesAreFree(s);
    ShownIsClean(Rest(s));
  }

  lemma {:induction false} ShownIsClean(piece: string)
    requires Free(piece, '\n')
    ensures Free(Shown(piece), '\r') && Free(Shown(piece), '\n')
  {
    AfterLastCrIsSuffix(if EndsWithCr(piece) then piece[..|piece| - 1] else piece);
  }

  // ----- one appended chunk, with the look-ahead of the source -----

  /** Where the loop of the source stands before byte `i` of a chunk, compared with the byte-wise
      splitter: it has already acted on a carriage return whose successor is in the same chunk. */
  ghost predicate InStep(code: Splitter, spec: Splitter, data: string, i: nat, now: int)
    requires i <= |data|
  {
    if i == 0 || i == |data| || data[i - 1] != '\r' then code == spec
    else
      && spec.pendingCr
      && code == if data[i] == '\n' then spec.(pendingCr := false) else Splitter("", false, now)
  }
}
