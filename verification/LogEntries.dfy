/** The entries of a session log. */
module LogEntries {

  datatype Stream = Stdout | Stderr

  /** Entry ids are determined by the revision, so highlights refer to revisions. */
  datatype Entry = Entry(
    revision: nat, byteStart: nat, byteEnd: nat, timestamp: int, stream: Stream, text: string, partial: bool)

  function MakeEntry(revision: nat, byteEnd: nat, now: int, stream: Stream, text: string, partial: bool): Entry {
    Entry(revision, if byteEnd >= |text| then byteEnd - |text| else 0, byteEnd, now, stream, text, partial)
  }

  /** Revisions are contiguous from `first` on. */
  ghost predicate Revised(es: seq<Entry>, first: nat) {
    forall i :: 0 <= i < |es| ==> es[i].revision == first + i
  }
}
