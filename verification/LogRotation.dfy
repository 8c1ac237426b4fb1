/** The rotating log file: a current file and a bounded number of older ones. */
module LogRotation {
  import opened Common

  /** File 0 is the current one, file `i` the one rotated `i` times; others may exist beyond the bound. */
  type Disk = map<nat, string>

  function At(disk: Disk, i: nat): string { if i in disk then disk[i] else "" }

  /** Files `n` down to 0, oldest first. */
  function Chain(disk: Disk, n: nat): string {
    if n == 0 then At(disk, 0)
    else if At(disk, n) == "" then Chain(disk, n - 1)
    else At(disk, n) + Chain(disk, n - 1)
  }

  // ----- rotation -----

  /** The shifting renames: each file from `n - 1` down to 1 moves up one place. */
  method RenameAll(disk: Disk, n: nat) returns (r: Disk)
    requires n >= 1
    ensures forall i :: 2 <= i <= n ==> At(r, i) == At(disk, i - 1) && (i in r <==> i - 1 in disk)
    ensures 1 !in r
    ensures forall i: nat :: i == 0 || i > n ==> At(r, i) == At(disk, i) && (i in r <==> i in disk)
  {
    r := disk - {n};
    var index := n;
    while index > 1
      invariant 1 <= index <= n
      invariant index !in r
      invariant forall i :: index < i <= n ==> At(r, i) == At(disk, i - 1) && (i in r <==> i - 1 in disk)
      invariant forall i: nat :: i < index || i > n ==> At(r, i) == At(disk, i) && (i in r <==> i in disk)
    {
      if index - 1 in r {
        r := r[index := r[index - 1]] - {index - 1};
      }
      index := index - 1;
    }
  }

  predicate IsRotated(before: Disk, after: Disk, n: nat) {
    && At(after, 0) == "" && 0 in after
    && forall i :: 1 <= i <= n ==> At(after, i) == At(before, i - 1)
  }

  lemma {:induction false} ChainShift(before: Disk, after: Disk, n: nat, k: nat)
    requires IsRotated(before, after, n) && 1 <= k <= n
    ensures Chain(after, k) == Chain(before, k - 1)
  {
    assert At(after, k) == At(before, k - 1);
    if k == 1 {
      assert At(before, 0) + "" == At(before, 0);
    } else {
      ChainShift(before, after, n, k - 1);
    }
  }

  lemma {:induction false} ChainAppend(disk: Disk, n: nat, data: string)
    ensures Chain(disk[0 := At(disk, 0) + data], n) == Chain(disk, n) + data
  {
    if n == 0 {
    } else {
      ChainAppend(disk, n - 1, data);
      assert At(disk, n) + (Chain(disk, n - 1) + data) == At(disk, n) + Chain(disk, n - 1) + data;
    }
  }

  lemma {:induction false} SuffixAppend(s: string, all: string, data: string)
    requires IsSuffix(s, all)
    ensures IsSuffix(s + data, all + data)
  {}

  /** Rotation drops the oldest file and nothing else. */
  lemma {:induction false} RotateDropsOldest(before: Disk, after: Disk, n: nat, written: string)
    requires n >= 1 && IsRotated(before, after, n) && IsSuffix(Chain(before, n), written)
    ensures Chain(before, n) == At(before, n) + Chain(after, n)
    ensures IsSuffix(Chain(after, n), written)
  {
    ChainShift(before, after, n, n);
    var a, b := At(before, n), Chain(before, n - 1);
    assert written[|written| - |b|..] == written[|written| - |a + b|..][|a|..];
  }

  // ----- what each file holds -----

  /** Where block `j` starts. */
  function Start(unit: nat, j: nat): nat { if j == 0 then 0 else Start(unit, j - 1) + unit }

  lemma {:induction false} StartAdds(unit: nat, i: nat, j: nat)
    ensures Start(unit, i + j) == Start(unit, i) + Start(unit, j)
  {
    if j == 0 {
    } else {
      StartAdds(unit, i, j - 1);
    }
  }

  lemma {:induction false} StartIsProduct(unit: nat, j: nat)
    ensures Start(unit, j) == j * unit
  {
    if j == 0 {
    } else {
      StartIsProduct(unit, j - 1);
    }
  }

  /** Block `j` of the bytes written, `unit` bytes long but for the last. */
  function Block(written: string, unit: nat, j: nat): string {
    var start := Start(unit, j);
    if start > |written| then "" else written[start..Min(start + unit, |written|)]
  }

  /** `k` is the last block. */
  predicate IsLast(written: string, unit: nat, k: nat) { Start(unit, k) < |written| <= Start(unit, k) + unit }

  function Expected(written: string, unit: nat, k: nat, i: nat): string {
    if written != "" && i <= k then Block(written, unit, k - i) else ""
  }

  /** Starting from nothing, file `i` holds the block `i` places before the last. */
  ghost predicate Holds(disk: Disk, n: nat, unit: nat, written: string, k: nat) {
    && (written == "" || IsLast(written, unit, k))
    && forall i :: 0 <= i <= n ==> At(disk, i) == Expected(written, unit, k, i)
  }

  lemma {:induction false} EarlierBlock(written: string, data: string, unit: nat, j: nat)
    requires Start(unit, j) + unit <= |written|
    ensures Block(written + data, unit, j) == Block(written, unit, j) && |Block(written, unit, j)| == unit
  {}

  lemma {:induction false} EarlierIsFull(written: string, unit: nat, k: nat, j: nat)
    requires IsLast(written, unit, k) && j < k
    ensures Start(unit, j) + unit <= Start(unit, k) < |written|
  {
    StartAdds(unit, j + 1, k - j - 1);
  }

  /** Writing the first string of all, into an empty disk. */
  lemma {:induction false} WriteFirst(disk: Disk, n: nat, unit: nat, data: string)
    requires 1 <= |data| <= unit && forall i :: 1 <= i <= n ==> At(disk, i) == ""
    ensures Holds(disk[0 := data], n, unit, data, 0)
  {
    var after := disk[0 := data];
    assert At(after, 0) == Block(data, unit, 0) == Expected(data, unit, 0, 0);
    forall i | 1 <= i <= n ensures At(after, i) == Expected(data, unit, 0, i) { assert At(after, i) == At(disk, i); }
  }

  /** Writing into the current file. */
  lemma {:induction false} WriteInto(disk: Disk, n: nat, unit: nat, written: string, k: nat, data: string)
    requires Holds(disk, n, unit, written, k) && data != "" && written != "" && |At(disk, 0)| + |data| <= unit
    ensures Holds(disk[0 := At(disk, 0) + data], n, unit, written + data, k)
  {
    var after, all := disk[0 := At(disk, 0) + data], written + data;
    assert At(disk, 0) == Block(written, unit, k);
    assert Block(written, unit, k) + data == Block(all, unit, k) == Expected(all, unit, k, 0);
    forall i | 1 <= i <= n ensures At(after, i) == Expected(all, unit, k, i) {
      assert At(after, i) == At(disk, i);
      if i <= k {
        EarlierIsFull(written, unit, k, k - i);
        EarlierBlock(written, data, unit, k - i);
      }
    }
  }

  /** Rotating a full file and writing into the new one. */
  lemma {:induction false} RotateInto(
    before: Disk, after: Disk, n: nat, unit: nat, written: string, k: nat, data: string)
    requires Holds(before, n, unit, written, k) && IsRotated(before, after, n) && written != ""
    requires |At(before, 0)| == unit && 1 <= |data| <= unit
    ensures Holds(after[0 := data], n, unit, written + data, k + 1)
  {
    var all, final := written + data, after[0 := data];
    assert At(before, 0) == Block(written, unit, k);
    assert |written| == Start(unit, k) + unit == Start(unit, k + 1);
    assert Block(all, unit, k + 1) == data == Expected(all, unit, k + 1, 0);
    forall i | 1 <= i <= n ensures At(final, i) == Expected(all, unit, k + 1, i) {
      assert At(final, i) == At(after, i) == At(before, i - 1);
      if i <= k + 1 {
        if i > 1 { EarlierIsFull(written, unit, k, k + 1 - i); }
        EarlierBlock(written, data, unit, k + 1 - i);
      }
    }
  }

  // ----- what survives -----

  /** The bytes written from block `j` on. */
  function From(written: string, unit: nat, j: nat): string {
    if Start(unit, j) <= |written| then written[Start(unit, j)..] else ""
  }

  lemma {:induction false} BlockThenRest(written: string, unit: nat, j: nat)
    requires Start(unit, j) + unit <= |written|
    ensures Block(written, unit, j) + From(written, unit, j + 1) == From(written, unit, j)
  {}

  lemma {:induction false} ExpectedThenRest(written: string, unit: nat, k: nat, m: nat)
    requires IsLast(written, unit, k) && m > 0
    ensures var e, rest := Expected(written, unit, k, m), From(written, unit, Minus(k, m - 1));
            From(written, unit, Minus(k, m)) == if m <= k then e + rest else rest
    ensures Expected(written, unit, k, m) == "" <==> m > k
  {
    if m <= k {
      EarlierIsFull(written, unit, k, k - m);
      BlockThenRest(written, unit, k - m);
    }
  }

  lemma {:induction false} LastBlock(written: string, unit: nat, k: nat)
    requires IsLast(written, unit, k)
    ensures Expected(written, unit, k, 0) == From(written, unit, k)
  {}

  lemma {:induction false} ChainOfBlocks(disk: Disk, n: nat, unit: nat, written: string, k: nat, m: nat)
    requires Holds(disk, n, unit, written, k) && written != "" && m <= n
    ensures Chain(disk, m) == From(written, unit, Minus(k, m))
  {
    assert At(disk, m) == Expected(written, unit, k, m);
    if m > 0 {
      ChainOfBlocks(disk, n, unit, written, k, m - 1);
      ExpectedThenRest(written, unit, k, m);
    } else {
      LastBlock(written, unit, k);
    }
  }

  /** The files hold the newest bytes written: everything, or at least as much as the older files can
      hold, in files within the limit. */
  lemma {:induction false} NewestBytesSurvive(disk: Disk, n: nat, unit: nat, written: string, k: nat)
    requires Holds(disk, n, unit, written, k)
    ensures IsSuffix(Chain(disk, n), written)
    ensures |Chain(disk, n)| >= Min(|written|, n * unit)
    ensures forall i :: 0 <= i <= n ==> |At(disk, i)| <= unit
  {
    if written == "" {
      EmptyChain(disk, n);
    } else {
      ChainOfBlocks(disk, n, unit, written, k, n);
      if n <= k {
        StartAdds(unit, k - n, n);
        StartIsProduct(unit, n);
      }
    }
  }

  /** With a limit of 0, which lets one byte in, every file that holds anything holds one byte. */
  lemma {:induction false} OneBytePerFile(disk: Disk, n: nat, written: string, k: nat, i: nat)
    requires Holds(disk, n, Max(0, 1), written, k) && i <= n && i < |written|
    ensures At(disk, i) == [written[|written| - 1 - i]]
  {
    StartIsProduct(1, k);
    StartIsProduct(1, k - i);
    assert At(disk, i) == Expected(written, 1, k, i);
  }

  lemma {:induction false} EmptyChain(disk: Disk, n: nat)
    requires forall i :: 0 <= i <= n ==> At(disk, i) == ""
    ensures Chain(disk, n) == ""
  {
    if n == 0 {
    } else {
      EmptyChain(disk, n - 1);
    }
  }

  /** The files depend only on the bytes written, not on how they were divided into writes. */
  lemma {:induction false} FilesAreDetermined(
    a: Disk, b: Disk, n: nat, unit: nat, written: string, j: nat, k: nat, i: nat)
    requires Holds(a, n, unit, written, j) && Holds(b, n, unit, written, k) && i <= n
    ensures At(a, i) == At(b, i)
  {
    if written != "" && j != k {
      if j < k { EarlierIsFull(written, unit, k, j); } else { EarlierIsFull(written, unit, j, k); }
      assert false;
    }
  }

  class RotatingFileStreamBuf {
    const maxBytes: nat
    const maxFiles: nat
    var files: Disk
    var currentSize: nat
    /** Everything ever written, after whatever the files held to begin with. */
    ghost var written: string
    /** The last block, for a log that started empty. */
    ghost var last: nat

    ghost predicate Valid() reads this {
      && maxFiles >= 1 && 0 in files && currentSize == |files[0]|
      && IsSuffix(Chain(files, maxFiles), written)
    }

    /** The limit on a file: a limit of 0 still lets one byte in. */
    function Unit(): nat { Max(maxBytes, 1) }

    /** The state of a log that started empty. */
    ghost predicate Blocks() reads this { Holds(files, maxFiles, Unit(), written, last) }

    constructor (disk: Disk, maxBytes: nat, maxFiles: nat)
      ensures Valid() && this.maxBytes == maxBytes && this.maxFiles == Max(maxFiles, 1)
      ensures written == Chain(disk, Max(maxFiles, 1))
      ensures disk == map[] ==> Blocks() && written == ""
    {
      this.maxBytes, this.maxFiles := maxBytes, Max(maxFiles, 1);
      files, currentSize := disk[0 := At(disk, 0)], |At(disk, 0)|;
      last := 0;
      written := Chain(disk, Max(maxFiles, 1));
      new;
      ChainAppend(disk, this.maxFiles, "");
      assert At(disk, 0) + "" == At(disk, 0) && written + "" == written;
      if disk == map[] { EmptyChain(files, this.maxFiles); }
    }

    method Rotate()
      requires Valid()
      modifies this`files, this`currentSize
      ensures Valid() && IsRotated(old(files), files, maxFiles) && currentSize == 0
    {
      var disk := RenameAll(files, maxFiles);
      files := disk[1 := disk[0]] - {0};
      files := files[0 := ""];
      currentSize := 0;
      RotateDropsOldest(old(files), files, maxFiles, written);
    }

    /** Every byte is accepted. */
    method Write(data: string) returns (accepted: nat)
      requires Valid()
      modifies this
      ensures Valid() && accepted == |data| && written == old(written) + data
      ensures old(Blocks()) ==> Blocks()
    {
      var total := 0;
      while total < |data|
        invariant 0 <= total <= |data| && Valid() && written == old(written) + data[..total]
        invariant old(Blocks()) ==> Blocks()
      {
        var chunk := WriteSome(data[total..]);
        assert data[total..][..chunk] == data[total..total + chunk];
        assert data[..total] + data[total..total + chunk] == data[..total + chunk];
        total := total + chunk;
      }
      accepted := total;
    }

    /** One turn of the write loop: rotates if the file is full, then writes what fits. */
    method WriteSome(data: string) returns (chunk: nat)
      requires Valid() && data != ""
      modifies this
      ensures Valid() && 1 <= chunk <= |data| && written == old(written) + data[..chunk]
      ensures old(Blocks()) ==> Blocks()
    {
      if currentSize >= maxBytes { Rotate(); }
      var remaining := if currentSize < maxBytes then maxBytes - currentSize else 0;
      chunk := Min(|data|, Max(remaining, 1));
      var piece := data[..chunk];
      ghost var next := if written == "" then 0 else if old(currentSize) >= maxBytes then last + 1 else last;
      if old(Blocks()) {
        Written(old(files), files, maxFiles, maxBytes, written, last, piece);
        assert Holds(files[0 := At(files, 0) + piece], maxFiles, Unit(), written + piece, next);
      }
      Put(piece);
      last := next;
    }

    method Put(data: string)
      requires Valid()
      modifies this`files, this`currentSize, this`written
      ensures Valid() && files == old(files)[0 := At(old(files), 0) + data] && written == old(written) + data
    {
      ChainAppend(files, maxFiles, data);
      SuffixAppend(Chain(files, maxFiles), written, data);
      files := files[0 := files[0] + data];
      written := written + data;
      currentSize := currentSize + |data|;
    }
  }

  lemma {:induction false} Written(
    before: Disk, files: Disk, n: nat, maxBytes: nat, written: string, k: nat, data: string)
    requires Holds(before, n, Max(maxBytes, 1), written, k) && n >= 1
    requires if |At(before, 0)| >= maxBytes then IsRotated(before, files, n) else files == before
    requires 1 <= |data| <= Max(Minus(maxBytes, |At(files, 0)|), 1)
    ensures Holds(files[0 := At(files, 0) + data], n, Max(maxBytes, 1), written + data,
                  if written == "" then 0 else if |At(before, 0)| >= maxBytes then k + 1 else k)
  {
    var unit := Max(maxBytes, 1);
    assert At(before, 0) == Expected(written, unit, k, 0);
    if written == "" {
      assert written + data == data && At(files, 0) + data == data;
      WriteFirst(files, n, unit, data);
    } else if |At(before, 0)| >= maxBytes {
      assert At(files, 0) + data == data;
      RotateInto(before, files, n, unit, written, k, data);
    } else {
      WriteInto(files, n, unit, written, k, data);
    }
  }
}
