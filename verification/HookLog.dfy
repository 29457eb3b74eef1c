/** The rotating append-only hook log, with a crash possible between any two file operations. */
module HookLog {

  /** A newline-terminated record; its size counts the newline. */
  datatype Record = Record(payload: string, size: nat)

  type Rec = r: Record | r.size > 0 witness Record("", 1)

  /** Slot 0 is the active file, slot `i` the generation with suffix `.i`; a missing slot
      is a missing file. */
  type Files = map<nat, seq<Rec>>

  datatype Op = Unlink(slot: nat) | Rename(from: nat, to: nat) | Append(record: Rec)

  function FileAt(files: Files, slot: nat): seq<Rec> {
    if slot in files then files[slot] else []
  }

  function Bytes(file: seq<Rec>): nat {
    if file == [] then 0 else Bytes(file[..|file| - 1]) + file[|file| - 1].size
  }

  /** One file operation; renaming or unlinking a missing file does nothing. */
  function Exec(files: Files, op: Op): Files {
    match op
    case Unlink(slot) => files - {slot}
    case Rename(from, to) => if from in files then (files - {from})[to := files[from]] else files
    case Append(record) => files[0 := FileAt(files, 0) + [record]]
  }

  function ExecAll(files: Files, ops: seq<Op>): Files {
    if ops == [] then files else Exec(ExecAll(files, ops[..|ops| - 1]), ops[|ops| - 1])
  }

  /** The shifts from slot `i` down to slot 1. */
  function Shifts(i: nat): seq<Op> {
    if i == 0 then [] else [Rename(i, i + 1)] + Shifts(i - 1)
  }

  function RotateOps(keep: nat): seq<Op> {
    if keep == 0 then [Unlink(0)] else [Unlink(keep)] + Shifts(keep - 1) + [Rename(0, 1)]
  }

  predicate MustRotate(files: Files, record: Rec, maxBytes: int) {
    maxBytes > 0 && Bytes(FileAt(files, 0)) > 0 && Bytes(FileAt(files, 0)) + record.size > maxBytes
  }

  /** The file operations before the append itself. */
  function Rotation(files: Files, record: Rec, maxBytes: int, keep: nat): seq<Op> {
    if MustRotate(files, record, maxBytes) then RotateOps(keep) else []
  }

  function AppendOps(files: Files, record: Rec, maxBytes: int, keep: nat): seq<Op> {
    Rotation(files, record, maxBytes, keep) + [Append(record)]
  }

  /** The generations from slot `i` down to the active file, oldest record first. */
  function Contents(files: Files, i: nat): seq<Rec> {
    if i == 0 then FileAt(files, 0) else FileAt(files, i) + Contents(files, i - 1)
  }

  // ---- the operations on the files ----

  class HookFiles {
    var files: Files
    /** File operations left before the writer dies. */
    var left: nat

    method Do(op: Op)
      requires left > 0
      modifies this
      ensures files == Exec(old(files), op) && left == old(left) - 1
    {
      files := Exec(files, op);
      left := left - 1;
    }

    /** Rolls the active file out to generation 1; stops where the writer dies. */
    method Rotate(keep: nat)
      modifies this
      ensures var ops := RotateOps(keep);
              var n := if old(left) < |ops| then old(left) else |ops|;
              files == ExecAll(old(files), ops[..n]) && left == old(left) - n
    {
      hide ExecAll, Exec, RotateOps;
      ghost var ops := RotateOps(keep);
      ghost var before := files;
      RotateShape(keep);
      ExecNone(before, ops);
      if left == 0 {
        return;
      }
      ExecNext(before, ops, 0);
      if keep == 0 {
        Do(Unlink(0));
        return;
      }
      Do(Unlink(keep));
      var i := keep - 1;
      while i >= 1
        invariant 0 <= i <= keep - 1
        invariant left == old(left) - (keep - i)
        invariant files == ExecAll(before, ops[..keep - i])
      {
        if left == 0 {
          return;
        }
        ExecNext(before, ops, keep - i);
        Do(Rename(i, i + 1));
        i := i - 1;
      }
      if left > 0 {
        ExecNext(before, ops, keep);
        Do(Rename(0, 1));
      }
    }

    method AppendRecord(record: Rec, maxBytes: int, keep: nat)
      modifies this
      ensures var ops := AppendOps(old(files), record, maxBytes, keep);
              var n := if old(left) < |ops| then old(left) else |ops|;
              files == ExecAll(old(files), ops[..n]) && left == old(left) - n
    {
      ghost var before, rotation := files, Rotation(files, record, maxBytes, keep);
      ghost var n := if left < |rotation| + 1 then left else |rotation| + 1;
      ExecTake(before, rotation, Append(record), n);
      if maxBytes > 0 {
        var size := Bytes(FileAt(files, 0));
        if size > 0 && size + record.size > maxBytes {
          Rotate(keep);
        }
      }
      if left > 0 {
        Do(Append(record));
      }
    }
  }

  /** What the first `n` of some operations and one more leave. */
  lemma ExecTake(files: Files, ops: seq<Op>, last: Op, n: nat)
    requires n <= |ops| + 1
    ensures ExecAll(files, (ops + [last])[..n]) ==
            if n <= |ops| then ExecAll(files, ops[..n]) else Exec(ExecAll(files, ops), last)
    ensures ops[..|ops|] == ops
    ensures ExecAll(files, []) == files
  {
    if n <= |ops| {
      assert (ops + [last])[..n] == ops[..n];
    } else {
      assert (ops + [last])[..n] == ops + [last] && (ops + [last])[..|ops|] == ops;
    }
  }

  lemma {:induction false} ShiftsShape(i: nat)
    ensures |Shifts(i)| == i
  {
    if i > 0 {
      ShiftsShape(i - 1);
    }
  }

  lemma {:induction false} ShiftsAt(i: nat, k: nat)
    requires k < i
    ensures |Shifts(i)| == i && Shifts(i)[k] == Rename(i - k, i - k + 1)
  {
    ShiftsShape(i);
    if k > 0 {
      ShiftsAt(i - 1, k - 1);
    }
  }

  /** Operation 0 unlinks the oldest slot; operation `k` moves slot `keep - k` up by one. */
  lemma RotateShape(keep: nat)
    ensures |RotateOps(keep)| == keep + 1 && RotateOps(keep)[0] == Unlink(keep)
    ensures forall k :: 1 <= k <= keep ==> RotateOps(keep)[k] == Rename(keep - k, keep - k + 1)
  {
    if keep > 0 {
      ShiftsShape(keep - 1);
      forall k | 1 <= k < keep ensures RotateOps(keep)[k] == Rename(keep - k, keep - k + 1) {
        ShiftsAt(keep - 1, k - 1);
      }
    }
  }

  lemma ExecNext(files: Files, ops: seq<Op>, n: nat)
    requires n < |ops|
    ensures ExecAll(files, ops[..n + 1]) == Exec(ExecAll(files, ops[..n]), ops[n])
  {
    assert ops[..n + 1][..n] == ops[..n];
  }

  lemma ExecNone(files: Files, ops: seq<Op>)
    ensures ExecAll(files, ops[..0]) == files
  {
  }

  // ---- no generation is overwritten ----

  /** Before operation `k` of a rotation the slot it moves to is vacant, from whatever
      state, however torn by earlier crashes, the rotation began. */
  lemma {:induction false} RenameTargetVacant(files: Files, keep: nat, k: nat)
    requires 1 <= k <= keep
    ensures |RotateOps(keep)| == keep + 1 && RotateOps(keep)[k] == Rename(keep - k, keep - k + 1)
    ensures keep - k + 1 !in ExecAll(files, RotateOps(keep)[..k])
  {
    RotateShape(keep);
    var ops := RotateOps(keep);
    ExecNext(files, ops, k - 1);
    if k == 1 {
      assert ops[..0] == [];
    } else {
      RenameTargetVacant(files, keep, k - 1);
    }
  }

  // ---- what a reader of the generations sees ----

  ghost predicate IsSuffix(a: seq<Rec>, b: seq<Rec>) {
    |a| <= |b| && a == b[|b| - |a|..]
  }

  lemma SuffixTrans(a: seq<Rec>, b: seq<Rec>, c: seq<Rec>)
    requires IsSuffix(a, b) && IsSuffix(b, c)
    ensures IsSuffix(a, c)
  {
  }

  lemma SuffixExtend(a: seq<Rec>, b: seq<Rec>, x: seq<Rec>)
    requires IsSuffix(a, b)
    ensures IsSuffix(a + x, b + x)
  {
  }

  lemma {:induction false} SameBelow(f: Files, g: Files, i: nat)
    requires forall j: nat :: j <= i ==> FileAt(f, j) == FileAt(g, j)
    ensures Contents(f, i) == Contents(g, i)
  {
    if i > 0 {
      SameBelow(f, g, i - 1);
    }
  }

  lemma RenameMoves(files: Files, i: nat)
    requires i + 1 !in files
    ensures var f := Exec(files, Rename(i, i + 1));
            && FileAt(f, i + 1) == FileAt(files, i) && FileAt(f, i) == [] && FileAt(files, i + 1) == []
            && (forall j: nat :: j != i && j != i + 1 ==> FileAt(f, j) == FileAt(files, j))
  {
  }

  /** Moving a generation to a vacant slot does not change what a reader sees. */
  lemma {:induction false} RenameKeepsContents(files: Files, i: nat, m: nat)
    requires i < m && i + 1 !in files
    ensures Contents(Exec(files, Rename(i, i + 1)), m) == Contents(files, m)
  {
    hide Contents, FileAt, Exec;
    var f := Exec(files, Rename(i, i + 1));
    RenameMoves(files, i);
    ContentsOf(f, m);
    ContentsOf(files, m);
    if m > i + 1 {
      RenameKeepsContents(files, i, m - 1);
    } else {
      ContentsOf(f, i);
      ContentsOf(files, i);
      if i > 0 {
        SameBelow(f, files, i - 1);
      }
    }
  }

  lemma ContentsOf(files: Files, i: nat)
    ensures i > 0 ==> Contents(files, i) == FileAt(files, i) + Contents(files, i - 1)
    ensures i == 0 ==> Contents(files, i) == FileAt(files, 0)
  {
  }

  lemma {:induction false} UnlinkDropsOldest(files: Files, keep: nat)
    ensures |FileAt(files, keep)| <= |Contents(files, keep)|
    ensures Contents(Exec(files, Unlink(keep)), keep) == Contents(files, keep)[|FileAt(files, keep)|..]
  {
    hide Contents, FileAt;
    var f := Exec(files, Unlink(keep));
    UnlinkedIsEmpty(files, keep);
    ContentsOf(f, keep);
    ContentsOf(files, keep);
    if keep > 0 {
      OthersUntouched(files, keep);
      SameBelow(f, files, keep - 1);
    }
  }

  lemma UnlinkedIsEmpty(files: Files, slot: nat)
    ensures FileAt(Exec(files, Unlink(slot)), slot) == []
  {
  }

  lemma OthersUntouched(files: Files, slot: nat)
    ensures forall j: nat :: j != slot ==> FileAt(Exec(files, Unlink(slot)), j) == FileAt(files, j)
  {
  }

  lemma {:induction false} AppendAddsLast(files: Files, record: Rec, i: nat)
    ensures Contents(Exec(files, Append(record)), i) == Contents(files, i) + [record]
  {
    if i > 0 {
      AppendAddsLast(files, record, i - 1);
      assert FileAt(Exec(files, Append(record)), i) == FileAt(files, i);
    }
  }

  /** What a reader sees once the oldest kept generation is gone. */
  function WithoutOldest(files: Files, keep: nat): seq<Rec> {
    UnlinkDropsOldest(files, keep);
    Contents(files, keep)[|FileAt(files, keep)|..]
  }

  /** Every operation of a rotation after the first leaves the reader's view alone. */
  lemma {:induction false} RotateDropsOldest(files: Files, keep: nat, n: nat)
    requires 1 <= n <= |RotateOps(keep)|
    ensures Contents(ExecAll(files, RotateOps(keep)[..n]), keep) == WithoutOldest(files, keep)
  {
    hide Contents, FileAt, RotateOps, ExecAll;
    RotateShape(keep);
    var ops := RotateOps(keep);
    ExecNext(files, ops, n - 1);
    var f := ExecAll(files, ops[..n - 1]);
    if n == 1 {
      UnlinkDropsOldest(files, keep);
      ExecNone(files, ops);
    } else {
      RotateDropsOldest(files, keep, n - 1);
      RenameTargetVacant(files, keep, n - 1);
      RenameKeepsContents(f, keep - (n - 1), keep);
    }
  }

  /** What a call that dies after `n` operations leaves: records are dropped only by a
      rotation, and only those of the oldest kept generation; the new record is there
      exactly when the call completes. */
  lemma AppendEffect(files: Files, record: Rec, maxBytes: int, keep: nat, n: nat)
    requires n <= |AppendOps(files, record, maxBytes, keep)|
    ensures var ops := AppendOps(files, record, maxBytes, keep);
            Contents(ExecAll(files, ops[..n]), keep) ==
              (if MustRotate(files, record, maxBytes) && n > 0 then WithoutOldest(files, keep) else Contents(files, keep))
              + (if n == |ops| then [record] else [])
  {
    hide Contents, ExecAll, Exec, MustRotate, RotateOps, WithoutOldest;
    var rotation := Rotation(files, record, maxBytes, keep);
    var f := Rotated(files, rotation, n);
    RotatedThenAppended(files, rotation, record, n, keep);
    if MustRotate(files, record, maxBytes) && n > 0 {
      RotateShape(keep);
      RotateDropsOldest(files, keep, if n < |rotation| then n else |rotation|);
    } else {
      ExecTake(files, [], Append(record), 0);
    }
  }

  /** The files after the first `n` operations of a rotation, or all of it. */
  function Rotated(files: Files, rotation: seq<Op>, n: nat): Files {
    ExecAll(files, rotation[..if n < |rotation| then n else |rotation|])
  }

  lemma RotatedThenAppended(files: Files, rotation: seq<Op>, record: Rec, n: nat, m: nat)
    requires n <= |rotation| + 1
    ensures Contents(ExecAll(files, (rotation + [Append(record)])[..n]), m) ==
            Contents(Rotated(files, rotation, n), m) + if n == |rotation| + 1 then [record] else []
  {
    hide Contents, ExecAll, Exec;
    ExecTake(files, rotation, Append(record), n);
    if n == |rotation| + 1 {
      AppendAddsLast(Rotated(files, rotation, n), record, m);
    }
  }

  // ---- readers of any depth ----

  lemma UnlinkOutOfView(files: Files, keep: nat, m: nat)
    requires m <= keep
    ensures IsSuffix(Contents(Exec(files, Unlink(keep)), m), Contents(files, m))
  {
    hide Contents, FileAt, Exec;
    if m == keep {
      UnlinkDropsOldest(files, keep);
    } else {
      OthersUntouched(files, keep);
      SameBelow(Exec(files, Unlink(keep)), files, m);
    }
  }

  /** A generation that moves up leaves the view of a reader at its oldest end, if at all. */
  lemma RenameOutOfView(files: Files, i: nat, m: nat)
    requires i + 1 !in files
    ensures IsSuffix(Contents(Exec(files, Rename(i, i + 1)), m), Contents(files, m))
  {
    hide Contents, FileAt, Exec;
    var f := Exec(files, Rename(i, i + 1));
    if i < m {
      RenameKeepsContents(files, i, m);
    } else {
      RenameMoves(files, i);
      ContentsOf(f, m);
      ContentsOf(files, m);
      if m > 0 {
        SameBelow(f, files, m - 1);
      }
    }
  }

  /** A rotation that keeps at least as many generations as the reader looks at leaves a
      suffix of what the reader saw, wherever it stops. */
  lemma {:induction false} DeepRotation(files: Files, keep: nat, n: nat, m: nat)
    requires n <= |RotateOps(keep)| && m <= keep
    ensures IsSuffix(Contents(ExecAll(files, RotateOps(keep)[..n]), m), Contents(files, m))
  {
    hide Contents, FileAt, RotateOps, ExecAll, Exec, IsSuffix;
    RotateShape(keep);
    var ops := RotateOps(keep);
    if n == 0 {
      ExecNone(files, ops);
      SuffixOfSelf(Contents(files, m));
    } else {
      ExecNext(files, ops, n - 1);
      var f := ExecAll(files, ops[..n - 1]);
      DeepRotation(files, keep, n - 1, m);
      if n == 1 {
        UnlinkOutOfView(f, keep, m);
      } else {
        RenameTargetVacant(files, keep, n - 1);
        RenameOutOfView(f, keep - (n - 1), m);
      }
      SuffixTrans(Contents(Exec(f, ops[n - 1]), m), Contents(f, m), Contents(files, m));
    }
  }

  lemma SuffixOfSelf(a: seq<Rec>)
    ensures IsSuffix(a, a)
  {
  }

  /** The generations from slot `m` down to slot `k + 1`. */
  function Above(files: Files, k: nat, m: nat): seq<Rec> {
    if m <= k then [] else FileAt(files, m) + Above(files, k, m - 1)
  }

  lemma {:induction false} ContentsSplit(files: Files, k: nat, m: nat)
    requires k <= m
    ensures Contents(files, m) == Above(files, k, m) + Contents(files, k)
  {
    hide Contents, FileAt;
    if k < m {
      ContentsSplit(files, k, m - 1);
      ContentsOf(files, m);
    }
  }

  lemma {:induction false} SameAbove(f: Files, g: Files, k: nat, m: nat)
    requires forall j: nat :: j > k ==> FileAt(f, j) == FileAt(g, j)
    ensures Above(f, k, m) == Above(g, k, m)
  {
    hide FileAt;
    if m > k {
      SameAbove(f, g, k, m - 1);
    }
  }

  lemma {:induction false} AboveIsEmpty(files: Files, k: nat, m: nat)
    ensures Above(files, k, m) == [] <==> forall j :: k < j <= m ==> FileAt(files, j) == []
  {
    hide FileAt;
    if m > k {
      AboveIsEmpty(files, k, m - 1);
    }
  }

  lemma OpBelow(files: Files, op: Op, keep: nat)
    requires op == Unlink(keep) || (op.Rename? && op.from < op.to <= keep)
    ensures forall j: nat :: j > keep ==> FileAt(Exec(files, op), j) == FileAt(files, j)
  {
  }

  /** A rotation does not touch the slots above the ones it keeps. */
  lemma {:induction false} RotateStaysBelow(files: Files, keep: nat, n: nat)
    requires n <= |RotateOps(keep)|
    ensures forall j: nat :: j > keep ==> FileAt(ExecAll(files, RotateOps(keep)[..n]), j) == FileAt(files, j)
  {
    hide FileAt, RotateOps, ExecAll, Exec;
    RotateShape(keep);
    if n == 0 {
      ExecNone(files, RotateOps(keep));
    } else {
      RotateStaysBelow(files, keep, n - 1);
      ExecNext(files, RotateOps(keep), n - 1);
      OpBelow(ExecAll(files, RotateOps(keep)[..n - 1]), RotateOps(keep)[n - 1], keep);
    }
  }

  /** A rotation that keeps fewer generations drops one in the middle of a deeper view. */
  lemma ShallowRotation(files: Files, keep: nat, n: nat, m: nat)
    requires 1 <= n <= |RotateOps(keep)| && keep < m
    ensures Contents(ExecAll(files, RotateOps(keep)[..n]), m) == Above(files, keep, m) + WithoutOldest(files, keep)
  {
    hide Contents, FileAt, RotateOps, ExecAll, WithoutOldest, Above;
    var f := ExecAll(files, RotateOps(keep)[..n]);
    RotateStaysBelow(files, keep, n);
    SameAbove(f, files, keep, m);
    ContentsSplit(f, keep, m);
    RotateDropsOldest(files, keep, n);
  }

  // ---- whole runs ----

  /** One call of the writer, dying after at most `ops` file operations. */
  datatype Call = Call(record: Rec, maxBytes: int, keep: nat, ops: nat)

  function Executed(files: Files, c: Call): seq<Op> {
    var ops := AppendOps(files, c.record, c.maxBytes, c.keep);
    if c.ops < |ops| then ops[..c.ops] else ops
  }

  /** The files after a run of calls. */
  function FilesAfter(calls: seq<Call>): Files {
    if calls == [] then map[]
    else
      var files := FilesAfter(calls[..|calls| - 1]);
      ExecAll(files, Executed(files, calls[|calls| - 1]))
  }

  /** The record that a call leaves in the active file, if it completes. */
  function NewRecord(files: Files, c: Call): seq<Rec> {
    if c.ops >= |AppendOps(files, c.record, c.maxBytes, c.keep)| then [c.record] else []
  }

  /** The records that were ever appended in it, in order. */
  function Appended(calls: seq<Call>): seq<Rec> {
    if calls == [] then []
    else
      var init := calls[..|calls| - 1];
      Appended(init) + NewRecord(FilesAfter(init), calls[|calls| - 1])
  }

  /** The call starts a rotation that keeps fewer generations than a reader of `m` looks at,
      with records in its oldest kept slot and in some slot between that and `m`. */
  ghost predicate Cuts(files: Files, c: Call, m: nat) {
    && MustRotate(files, c.record, c.maxBytes) && c.ops > 0 && c.keep < m
    && FileAt(files, c.keep) != [] && exists j :: c.keep < j <= m && FileAt(files, j) != []
  }

  ghost predicate Distinct(s: seq<Rec>) {
    forall i, j :: 0 <= i < j < |s| ==> s[i] != s[j]
  }

  /** Leaving out the middle of a suffix leaves a suffix only if there is nothing before it
      or nothing in it. */
  lemma MiddleDropped(a: seq<Rec>, b: seq<Rec>, c: seq<Rec>, all: seq<Rec>)
    requires IsSuffix(a + (b + c), all)
    ensures a == [] || b == [] ==> IsSuffix(a + c, all)
    ensures Distinct(all) && a != [] && b != [] ==> !IsSuffix(a + c, all)
  {
    var whole := a + (b + c);
    var d := |all| - |whole|;
    if a == [] {
      assert a + c == whole[|b|..];
    } else if b == [] {
      assert a + c == whole;
    } else if Distinct(all) {
      assert all[d] == all[d..][0] == (a + c)[0] && all[d + |b|] != all[d];
      assert all[|all| - |a + c|..][0] != (a + c)[0];
    }
  }

  lemma SuffixShrinks(a: seq<Rec>, b: seq<Rec>, x: Rec)
    requires IsSuffix(a + [x], b + [x])
    ensures IsSuffix(a, b)
  {
    assert (a + [x])[..|a|] == a && (b + [x])[..|b|] == b;
    assert (b + [x])[|b| - |a|..][..|a|] == b[|b| - |a|..];
  }

  lemma RotatedView(files: Files, c: Call, all: seq<Rec>, n: nat, m: nat)
    requires IsSuffix(Contents(files, m), all) && MustRotate(files, c.record, c.maxBytes)
    requires n <= c.ops && 1 <= n <= |RotateOps(c.keep)|
    ensures var view := Contents(ExecAll(files, RotateOps(c.keep)[..n]), m);
            && (!Cuts(files, c, m) ==> IsSuffix(view, all))
            && (Distinct(all) && Cuts(files, c, m) ==> !IsSuffix(view, all))
  {
    hide Contents, FileAt, RotateOps, ExecAll, MustRotate, IsSuffix, Distinct, Above;
    var view := Contents(ExecAll(files, RotateOps(c.keep)[..n]), m);
    if m <= c.keep {
      DeepRotation(files, c.keep, n, m);
      SuffixTrans(view, Contents(files, m), all);
    } else {
      ShallowRotation(files, c.keep, n, m);
      ContentsSplit(files, c.keep, m);
      OldestFirst(files, c.keep);
      AboveIsEmpty(files, c.keep, m);
      var a, b, d := Above(files, c.keep, m), FileAt(files, c.keep), WithoutOldest(files, c.keep);
      MiddleDropped(a, b, d, all);
    }
  }

  lemma OldestFirst(files: Files, keep: nat)
    ensures Contents(files, keep) == FileAt(files, keep) + WithoutOldest(files, keep)
  {
    hide FileAt, Contents;
    ContentsOf(files, keep);
  }

  /** One call, dying anywhere, keeps the view of a reader of `m` gapless unless it cuts; if
      it cuts and no record occurs twice, it leaves a gap. */
  lemma CallGapless(files: Files, c: Call, all: seq<Rec>, m: nat)
    requires IsSuffix(Contents(files, m), all)
    ensures var view := Contents(ExecAll(files, Executed(files, c)), m);
            && (!Cuts(files, c, m) ==> IsSuffix(view, all + NewRecord(files, c)))
            && (Distinct(all) && Cuts(files, c, m) ==> !IsSuffix(view, all + NewRecord(files, c)))
  {
    hide Contents, ExecAll, MustRotate, RotateOps, IsSuffix, Distinct, Cuts;
    var rotation := Rotation(files, c.record, c.maxBytes, c.keep);
    var n := if c.ops < |rotation| + 1 then c.ops else |rotation| + 1;
    var ops := rotation + [Append(c.record)];
    assert Executed(files, c) == ops[..n] by { assert ops[..|ops|] == ops; }
    RotatedThenAppended(files, rotation, c.record, n, m);
    var f := Rotated(files, rotation, n);
    if MustRotate(files, c.record, c.maxBytes) && n > 0 {
      RotateShape(c.keep);
      RotatedView(files, c, all, if n < |rotation| then n else |rotation|, m);
    } else {
      ExecNone(files, rotation);
      NotCut(files, c, m);
    }
    AddedToBoth(Contents(f, m), all, NewRecord(files, c));
  }

  lemma NotCut(files: Files, c: Call, m: nat)
    requires !MustRotate(files, c.record, c.maxBytes) || c.ops == 0
    ensures !Cuts(files, c, m)
  {
  }

  lemma AddedToBoth(a: seq<Rec>, b: seq<Rec>, x: seq<Rec>)
    requires |x| <= 1
    ensures IsSuffix(a, b) <==> IsSuffix(a + x, b + x)
  {
    if IsSuffix(a, b) {
      SuffixExtend(a, b, x);
    }
    if IsSuffix(a + x, b + x) {
      if |x| == 1 {
        assert x == [x[0]];
        SuffixShrinks(a, b, x[0]);
      } else {
        assert a + x == a && b + x == b;
      }
    }
  }

  /** Whether a reader of `m` generations sees a gapless, in-order suffix of everything appended. */
  ghost predicate Gapless(calls: seq<Call>, m: nat) {
    IsSuffix(Contents(FilesAfter(calls), m), Appended(calls))
  }

  lemma {:induction false} OneMoreCall(calls: seq<Call>, m: nat)
    requires calls != [] && Gapless(calls[..|calls| - 1], m)
    ensures var init, c := calls[..|calls| - 1], calls[|calls| - 1];
            && (!Cuts(FilesAfter(init), c, m) ==> Gapless(calls, m))
            && (Distinct(Appended(init)) && Cuts(FilesAfter(init), c, m) ==> !Gapless(calls, m))
  {
    hide Contents, ExecAll, IsSuffix, Distinct, Cuts;
    var init, c := calls[..|calls| - 1], calls[|calls| - 1];
    CallGapless(FilesAfter(init), c, Appended(init), m);
  }

  /** A run none of whose calls cuts the view leaves it gapless, wherever the calls die. */
  lemma {:induction false} UncutIsGapless(calls: seq<Call>, m: nat)
    requires forall i :: 0 <= i < |calls| ==> !Cuts(FilesAfter(calls[..i]), calls[i], m)
    ensures Gapless(calls, m)
  {
    hide Contents, FilesAfter, Appended, Cuts, Gapless;
    if calls == [] {
      EmptyIsGapless(m);
    } else {
      var init := calls[..|calls| - 1];
      forall i | 0 <= i < |init| ensures !Cuts(FilesAfter(init[..i]), init[i], m) {
        assert init[..i] == calls[..i] && init[i] == calls[i];
      }
      UncutIsGapless(init, m);
      OneMoreCall(calls, m);
    }
  }

  lemma EmptyIsGapless(m: nat)
    ensures Gapless([], m)
  {
    NoFiles(m);
  }

  lemma {:induction false} AppendedGrows(calls: seq<Call>, i: nat)
    requires i <= |calls|
    ensures Appended(calls[..i]) <= Appended(calls)
  {
    hide FilesAfter, AppendOps;
    if i < |calls| {
      var init := calls[..|calls| - 1];
      AppendedGrows(init, i);
      assert init[..i] == calls[..i];
      assert Appended(init) <= Appended(calls);
    } else {
      assert calls[..i] == calls;
    }
  }

  /** A reader of `m` generations sees a gapless suffix at every moment of a run exactly when
      no call of the run cuts its view. */
  lemma {:induction false} GaplessIffUncut(calls: seq<Call>, m: nat)
    requires Distinct(Appended(calls))
    ensures (forall i :: 0 <= i <= |calls| ==> Gapless(calls[..i], m)) <==>
            (forall i :: 0 <= i < |calls| ==> !Cuts(FilesAfter(calls[..i]), calls[i], m))
  {
    hide FilesAfter, Appended, Cuts, Gapless;
    if forall i :: 0 <= i < |calls| ==> !Cuts(FilesAfter(calls[..i]), calls[i], m) {
      forall i | 0 <= i <= |calls| ensures Gapless(calls[..i], m) {
        forall j | 0 <= j < i ensures !Cuts(FilesAfter(calls[..i][..j]), calls[..i][j], m) {
          assert calls[..i][..j] == calls[..j];
        }
        UncutIsGapless(calls[..i], m);
      }
    } else {
      var i :| 0 <= i < |calls| && Cuts(FilesAfter(calls[..i]), calls[i], m);
      assert calls[..i + 1][..i] == calls[..i];
      AppendedGrows(calls, i);
      if Gapless(calls[..i], m) {
        OneMoreCall(calls[..i + 1], m);
        assert !Gapless(calls[..i + 1], m);
      }
    }
  }

  /** Whatever caps the calls use and wherever they die, a reader of at most as many
      generations as every call kept sees a gapless, in-order suffix of everything appended. */
  lemma {:induction false} GenerationsHoldSuffix(calls: seq<Call>, m: nat)
    requires forall i :: 0 <= i < |calls| ==> m <= calls[i].keep
    ensures IsSuffix(Contents(FilesAfter(calls), m), Appended(calls))
  {
    UncutIsGapless(calls, m);
  }

  const A: Rec := Record("a", 1)
  const B: Rec := Record("b", 1)
  const C: Rec := Record("c", 1)
  const FIRST := Call(A, 1, 1, 9)
  const SECOND := Call(B, 1, 1, 9)
  const THIRD := Call(C, 1, 0, 9)

  /** A call that keeps no generation after one that kept one: a reader of one generation
      misses the second of three records. */
  lemma SmallerKeepLeavesGap()
    ensures Contents(FilesAfter([FIRST, SECOND, THIRD]), 1) == [A, C]
    ensures Appended([FIRST, SECOND, THIRD]) == [A, B, C] && !Gapless([FIRST, SECOND, THIRD], 1)
  {
    hide ExecAll, Executed, NewRecord;
    var one, two, three := [FIRST], [FIRST, SECOND], [FIRST, SECOND, THIRD];
    assert three[..2] == two && two[..1] == one && one[..0] == [];
    FirstCall(FIRST);
    RotatingCall(map[0 := [A]], SECOND);
    UnlinkingCall(map[0 := [B], 1 := [A]], THIRD);
    assert FilesAfter([]) == map[] && Appended([]) == [];
    assert FilesAfter(one) == map[0 := [A]] && Appended(one) == [A];
    assert FilesAfter(two) == map[0 := [B], 1 := [A]] && Appended(two) == [A, B];
    assert FilesAfter(three) == map[0 := [C], 1 := [A]] && Appended(three) == [A, B, C];
    GapView();
  }

  lemma GapView()
    ensures Contents(map[0 := [C], 1 := [A]], 1) == [A, C] && !IsSuffix([A, C], [A, B, C])
  {
    var files: Files := map[0 := [C], 1 := [A]];
    ContentsOf(files, 1);
    ContentsOf(files, 0);
    assert [A, B, C][1..] == [B, C];
  }

  lemma ExecMore(files: Files, ops: seq<Op>, op: Op)
    ensures ExecAll(files, ops + [op]) == Exec(ExecAll(files, ops), op)
    ensures ExecAll(files, [op]) == Exec(files, op)
  {
    assert (ops + [op])[..|ops|] == ops && [op][..0] == [];
    ExecNone(files, []);
  }

  lemma OneRecord(r: Rec)
    ensures Bytes([r]) == r.size && Bytes([]) == 0
  {
    assert [r][..0] == [];
  }

  /** To an empty directory. */
  lemma FirstCall(c: Call)
    requires c.ops >= 9
    ensures ExecAll(map[], Executed(map[], c)) == map[0 := [c.record]] && NewRecord(map[], c) == [c.record]
  {
    OneRecord(c.record);
    ExecMore(map[], [], Append(c.record));
    assert AppendOps(map[], c.record, c.maxBytes, c.keep) == [Append(c.record)] && [] + [c.record] == [c.record];
  }

  /** To a full active file, keeping one generation. */
  lemma RotatingCall(files: Files, c: Call)
    requires files.Keys == {0} && |files[0]| == 1 && c.maxBytes == 1 && c.keep == 1 && c.ops >= 9
    ensures ExecAll(files, Executed(files, c)) == map[0 := [c.record], 1 := files[0]] && NewRecord(files, c) == [c.record]
  {
    hide ExecAll;
    OneRecord(files[0][0]);
    assert files[0] == [files[0][0]];
    assert RotateOps(1) == [Unlink(1)] + [Rename(0, 1)];
    ExecMore(files, [], Unlink(1));
    ExecMore(files, [Unlink(1)], Rename(0, 1));
    ExecMore(files, [Unlink(1)] + [Rename(0, 1)], Append(c.record));
    var moved := Exec(Exec(files, Unlink(1)), Rename(0, 1));
    assert moved == map[1 := files[0]] && [] + [c.record] == [c.record];
    assert Exec(moved, Append(c.record)) == map[0 := [c.record], 1 := files[0]];
  }

  /** To a full active file, keeping none. */
  lemma UnlinkingCall(files: Files, c: Call)
    requires 0 in files && |files[0]| == 1 && c.maxBytes == 1 && c.keep == 0 && c.ops >= 9
    ensures ExecAll(files, Executed(files, c)) == files[0 := [c.record]] && NewRecord(files, c) == [c.record]
  {
    hide ExecAll;
    OneRecord(files[0][0]);
    assert files[0] == [files[0][0]];
    ExecMore(files, [], Unlink(0));
    ExecMore(files, [Unlink(0)], Append(c.record));
    assert [] + [c.record] == [c.record];
    assert Exec(Exec(files, Unlink(0)), Append(c.record)) == files[0 := [c.record]];
  }

  lemma {:induction false} NoFiles(i: nat)
    ensures Contents(map[], i) == []
  {
    if i > 0 {
      NoFiles(i - 1);
    }
  }

  // ---- what a call leaves in each slot ----

  lemma UnlinkSlots(files: Files, keep: nat)
    ensures forall j: nat :: FileAt(Exec(files, Unlink(keep)), j) == if j == keep then [] else FileAt(files, j)
  {
  }

  /** After the unlink and `moved` renames, the upper slots have moved up by one. */
  lemma {:induction false} RotatedSlots(files: Files, keep: nat, moved: nat, j: nat)
    requires moved <= keep
    ensures |RotateOps(keep)| == keep + 1
    ensures FileAt(ExecAll(files, RotateOps(keep)[..moved + 1]), j) ==
            if j > keep || j < keep - moved then FileAt(files, j)
            else if j == keep - moved then []
            else FileAt(files, j - 1)
  {
    hide FileAt, Exec, ExecAll, RotateOps;
    RotateShape(keep);
    ExecNext(files, RotateOps(keep), moved);
    if moved == 0 {
      ExecNone(files, RotateOps(keep));
      UnlinkSlots(files, keep);
    } else {
      var f := ExecAll(files, RotateOps(keep)[..moved]);
      RenameTargetVacant(files, keep, moved);
      RenameMoves(f, keep - moved);
      RotatedSlots(files, keep, moved - 1, j);
      RotatedSlots(files, keep, moved - 1, keep - moved);
    }
  }

  lemma AppendSlots(files: Files, record: Rec)
    ensures FileAt(Exec(files, Append(record)), 0) == FileAt(files, 0) + [record]
    ensures forall j: nat :: j > 0 ==> FileAt(Exec(files, Append(record)), j) == FileAt(files, j)
  {
  }

  /** With rotation off, an empty active file, or room for the record under the cap, a call
      only adds the record to the active file. */
  lemma RoomyCall(files: Files, c: Call)
    requires c.maxBytes <= 0 || FileAt(files, 0) == [] || Bytes(FileAt(files, 0)) + c.record.size <= c.maxBytes
    ensures var t := ExecAll(files, Executed(files, c));
            && FileAt(t, 0) == FileAt(files, 0) + (if c.ops > 0 then [c.record] else [])
            && (forall j: nat :: j > 0 ==> FileAt(t, j) == FileAt(files, j))
            && NewRecord(files, c) == if c.ops > 0 then [c.record] else []
  {
    hide FileAt, Exec, ExecAll;
    NoBytes();
    var ops := AppendOps(files, c.record, c.maxBytes, c.keep);
    assert ops == [] + [Append(c.record)];
    ExecTake(files, [], Append(c.record), if c.ops > 0 then 1 else 0);
    assert ops[..1] == ops;
    AppendSlots(files, c.record);
  }

  lemma NoFileAt()
    ensures forall j: nat :: FileAt(map[], j) == []
  {
  }

  lemma NoBytes()
    ensures Bytes([]) == 0
  {
  }

  /** Otherwise a completed call starts a new active file with the record; the old one becomes
      generation 1 and each kept generation moves up by one. */
  lemma FullCall(files: Files, c: Call)
    requires c.maxBytes > 0 && FileAt(files, 0) != [] && Bytes(FileAt(files, 0)) + c.record.size > c.maxBytes
    requires c.ops >= c.keep + 2
    ensures var t := ExecAll(files, Executed(files, c));
            && FileAt(t, 0) == [c.record] && NewRecord(files, c) == [c.record]
            && (c.keep > 0 ==> FileAt(t, 1) == FileAt(files, 0))
            && (forall j :: 1 <= j < c.keep ==> FileAt(t, j + 1) == FileAt(files, j))
            && (forall j: nat :: j > c.keep && j > 0 ==> FileAt(t, j) == FileAt(files, j))
  {
    hide FileAt, Exec, ExecAll, RotateOps;
    AppendBytes(FileAt(files, 0), c.record);
    var rotation := RotateOps(c.keep);
    RotateShape(c.keep);
    ExecTake(files, rotation, Append(c.record), |rotation| + 1);
    assert (rotation + [Append(c.record)])[..|rotation| + 1] == rotation + [Append(c.record)];
    var f := ExecAll(files, rotation);
    assert Executed(files, c) == rotation + [Append(c.record)];
    assert ExecAll(files, Executed(files, c)) == Exec(f, Append(c.record));
    assert rotation[..c.keep + 1] == rotation;
    AppendSlots(f, c.record);
    forall j: nat ensures FileAt(f, j) == if j > c.keep then FileAt(files, j) else if j == 0 then [] else FileAt(files, j - 1) {
      RotatedSlots(files, c.keep, c.keep, j);
    }
    RotatedSlots(files, c.keep, c.keep, 0);
    var t := Exec(f, Append(c.record));
    assert FileAt(t, 0) == [] + [c.record];
    forall j: nat | j > c.keep && j > 0 ensures FileAt(t, j) == FileAt(files, j) {
      RotatedSlots(files, c.keep, c.keep, j);
    }
  }

  /** The sizes of all records of a run together. */
  function TotalBytes(calls: seq<Call>): nat {
    if calls == [] then 0 else TotalBytes(calls[..|calls| - 1]) + calls[|calls| - 1].record.size
  }

  /** As long as everything fits under the cap, or with rotation off, all records are in the
      active file and there are no generations. */
  lemma {:induction false} SmallRunStays(calls: seq<Call>, total: nat)
    requires TotalBytes(calls) <= total && forall i :: 0 <= i < |calls| ==> calls[i].maxBytes <= 0 || total <= calls[i].maxBytes
    ensures FileAt(FilesAfter(calls), 0) == Appended(calls) && Bytes(Appended(calls)) <= TotalBytes(calls)
    ensures forall j: nat :: j > 0 ==> FileAt(FilesAfter(calls), j) == []
  {
    hide ExecAll, Executed, NewRecord, FileAt, Bytes;
    NoBytes();
    if calls == [] {
      NoFileAt();
    } else {
      var init, c := calls[..|calls| - 1], calls[|calls| - 1];
      SmallRunStays(init, total);
      RoomyCall(FilesAfter(init), c);
      AppendBytes(Appended(init), c.record);
      assert Appended(init) + [] == Appended(init);
    }
  }

  // ---- sizes ----

  /** Every generation is within the cap or a single oversized record. */
  ghost predicate Bounded(files: Files, cap: int) {
    forall slot :: slot in files ==> Bytes(files[slot]) <= cap || |files[slot]| == 1
  }

  lemma {:induction false} MovesKeepBounded(files: Files, ops: seq<Op>, cap: int)
    requires Bounded(files, cap) && forall k :: 0 <= k < |ops| ==> !ops[k].Append?
    ensures Bounded(ExecAll(files, ops), cap)
  {
    if ops != [] {
      MovesKeepBounded(files, ops[..|ops| - 1], cap);
      assert !ops[|ops| - 1].Append?;
    }
  }

  /** A completed rotation leaves no active file. */
  lemma RotatedIsFresh(files: Files, keep: nat)
    ensures 0 !in ExecAll(files, RotateOps(keep))
  {
    RotateShape(keep);
    ExecNext(files, RotateOps(keep), keep);
    assert RotateOps(keep)[..keep + 1] == RotateOps(keep);
  }

  lemma AppendKeepsBounded(files: Files, record: Rec, cap: int, keep: nat, n: nat)
    requires cap > 0 && Bounded(files, cap) && n <= |AppendOps(files, record, cap, keep)|
    ensures Bounded(ExecAll(files, AppendOps(files, record, cap, keep)[..n]), cap)
  {
    hide Bounded, ExecAll, RotateOps, Bytes;
    var rotation := Rotation(files, record, cap, keep);
    ExecTake(files, rotation, Append(record), n);
    RotateShape(keep);
    MovesKeepBounded(files, if n <= |rotation| then rotation[..n] else rotation, cap);
    if n > |rotation| {
      var f := ExecAll(files, rotation);
      if MustRotate(files, record, cap) {
        RotatedIsFresh(files, keep);
      }
      OneMoreRecord(f, record, cap);
    }
  }

  /** Appending to an active file that has room, or to none. */
  lemma OneMoreRecord(files: Files, record: Rec, cap: int)
    requires Bounded(files, cap)
    requires 0 in files && Bytes(files[0]) > 0 ==> Bytes(files[0]) + record.size <= cap
    ensures Bounded(Exec(files, Append(record)), cap)
  {
    AppendBytes(FileAt(files, 0), record);
  }

  lemma AppendBytes(file: seq<Rec>, record: Rec)
    ensures Bytes(file + [record]) == Bytes(file) + record.size
    ensures Bytes(file) == 0 <==> file == []
  {
    assert (file + [record])[..|file|] == file;
  }

  lemma {:induction false} GenerationsAreBounded(calls: seq<Call>, cap: int)
    requires cap > 0 && forall i :: 0 <= i < |calls| ==> calls[i].maxBytes == cap
    ensures Bounded(FilesAfter(calls), cap)
  {
    if calls != [] {
      var init, c := calls[..|calls| - 1], calls[|calls| - 1];
      GenerationsAreBounded(init, cap);
      var files := FilesAfter(init);
      var ops := AppendOps(files, c.record, cap, c.keep);
      assert ops[..|ops|] == ops;
      AppendKeepsBounded(files, c.record, cap, c.keep, if c.ops < |ops| then c.ops else |ops|);
    }
  }
}
