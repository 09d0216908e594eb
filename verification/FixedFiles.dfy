/** The fixed-file table and its kernel mirror. */
module FixedFiles {
  import opened Bits
  import opened Indices

  const SENTINEL: int := -1
  const DEFAULT_RING_SIZE: nat := 4096

  /** `free` is a stack whose top is its last element. */
  datatype Table = Table(indexMap: map<int, nat>, files: seq<int>, free: seq<nat>)

  function Reversed(n: nat): (s: seq<nat>)
    ensures |s| == n && forall i :: 0 <= i < n ==> s[i] == n - 1 - i
  {
    seq(n, i requires 0 <= i < n => n - 1 - i)
  }

  function NewTable(capacity: nat): Table {
    Table(map[], seq(capacity, i => SENTINEL), Reversed(capacity))
  }

  function Insert(t: Table, fd: int): (Table, Option<nat>) {
    if fd in t.indexMap then (t, Some(t.indexMap[fd]))
    else if t.free == [] then (t, None)
    else
      var index := t.free[|t.free| - 1];
      (Table(t.indexMap[fd := index], Put(t.files, index, fd), t.free[..|t.free| - 1]), Some(index))
  }

  function Remove(t: Table, fd: int): (Table, Option<nat>) {
    if fd !in t.indexMap then (t, None)
    else
      var index := t.indexMap[fd];
      (Table(t.indexMap - {fd}, Put(t.files, index, SENTINEL), t.free + [index]), Some(index))
  }

  /** Indices are split between the map and the free stack. */
  ghost predicate Shared(t: Table) {
    Partition(|t.files|, t.free, t.indexMap, multiset{})
  }

  /** The map and the array are inverse to each other, and the free stack is exactly the empty slots. */
  ghost predicate Inverse(t: Table) {
    && (forall fd :: fd in t.indexMap ==> fd != SENTINEL && t.indexMap[fd] < |t.files| && t.files[t.indexMap[fd]] == fd)
    && (forall i :: 0 <= i < |t.files| && t.files[i] != SENTINEL ==> t.files[i] in t.indexMap && t.indexMap[t.files[i]] == i)
    && NoDup(t.free)
    && (forall i: nat :: i in t.free <==> i < |t.files| && t.files[i] == SENTINEL)
  }

  /** Mutual inverses account for every slot: mapped plus free is the capacity. */
  lemma InverseCounts(t: Table)
    requires Inverse(t)
    ensures Shared(t)
    ensures |t.indexMap| + |t.free| == |t.files|
  {
    forall i: nat | Mapped(t.indexMap, i) ensures i < |t.files| && t.files[i] != SENTINEL {
      var fd :| fd in t.indexMap && t.indexMap[fd] == i;
    }
    forall i: nat | i < |t.files| && i !in t.free ensures Mapped(t.indexMap, i) {
      assert t.files[i] in t.indexMap;
    }
    PartitionMeaning(|t.files|, t.free, t.indexMap, multiset{});
    ValuesSize(t.indexMap);
    assert |multiset(t.free)| + |Values(t.indexMap)| == |multiset(Range(|t.files|))|;
  }

  lemma NewTableInverse(capacity: nat)
    ensures Inverse(NewTable(capacity))
  {
    var t := NewTable(capacity);
    forall i: nat ensures i in t.free <==> i < capacity {
      if i < capacity {
        assert t.free[capacity - 1 - i] == i;
      }
    }
  }

  /** A table after the descriptors of a list have been inserted one by one. */
  function InsertAll(t: Table, fds: seq<int>): Table {
    if fds == [] then t else Insert(InsertAll(t, fds[..|fds| - 1]), fds[|fds| - 1]).0
  }

  /** The descriptors sit in the first slots, in order, and the remaining slots are free with the lowest on top. */
  ghost predicate Filled(t: Table, capacity: nat, fds: seq<int>) {
    && |fds| <= |t.files| == capacity && t.free == Reversed(capacity)[..capacity - |fds|]
    && (forall fd :: fd in t.indexMap <==> fd in fds)
    && forall i :: 0 <= i < |fds| ==> fds[i] in t.indexMap && t.indexMap[fds[i]] == i && t.files[i] == fds[i]
  }

  lemma FilledStep(t: Table, capacity: nat, fds: seq<int>, fd: int)
    requires Filled(t, capacity, fds) && |fds| < capacity && fd !in fds
    ensures Filled(Insert(t, fd).0, capacity, fds + [fd])
  {
    var n, all, t' := |fds|, fds + [fd], Insert(t, fd).0;
    assert t.free[|t.free| - 1] == n;
    assert t'.free == Reversed(capacity)[..capacity - |all|];
    forall i | 0 <= i < |all| ensures all[i] in t'.indexMap && t'.indexMap[all[i]] == i && t'.files[i] == all[i] {
      if i < n {
        assert all[i] == fds[i] && fds[i] in fds;
      }
    }
  }

  /** A new table hands out its indices from 0 upwards. */
  lemma {:induction false} FillsInOrder(capacity: nat, fds: seq<int>)
    requires |fds| <= capacity && NoDup(fds)
    ensures Filled(InsertAll(NewTable(capacity), fds), capacity, fds)
  {
    if fds == [] {
      assert Reversed(capacity)[..capacity] == Reversed(capacity);
    } else {
      var n := |fds| - 1;
      FillsInOrder(capacity, fds[..n]);
      assert fds == fds[..n] + [fds[n]];
      FilledStep(InsertAll(NewTable(capacity), fds[..n]), capacity, fds[..n], fds[n]);
    }
  }

  /** Insertion keeps the table consistent exactly when it does not have to store the sentinel. */
  lemma InsertKeepsIff(t: Table, fd: int)
    requires Inverse(t)
    ensures Inverse(Insert(t, fd).0) <==> fd != SENTINEL || t.free == []
  {
    var (t', got) := Insert(t, fd);
    if fd !in t.indexMap && t.free != [] {
      var index := t.free[|t.free| - 1];
      assert index in t.free;
      assert t.free == t'.free + [index];
      assert forall i :: i in t'.free <==> i in t.free && i != index;
      if fd == SENTINEL {
        assert fd in t'.indexMap;
      } else {
        assert NoDup(t'.free);
        assert forall g :: g in t.indexMap ==> t.indexMap[g] != index;
      }
    }
  }

  /** Insertion fails only when the table is full and the descriptor absent. */
  lemma InsertFailsIff(t: Table, fd: int)
    requires Inverse(t)
    ensures Insert(t, fd).1.None? <==> fd !in t.indexMap && |t.indexMap| == |t.files|
    ensures var (t', got) := Insert(t, fd); got.Some? ==> fd in t'.indexMap && t'.indexMap[fd] == got.value
  {
    InverseCounts(t);
  }

  lemma RemoveKeeps(t: Table, fd: int)
    requires Inverse(t)
    ensures Inverse(Remove(t, fd).0)
    ensures fd !in Remove(t, fd).0.indexMap
  {
    var (t', got) := Remove(t, fd);
    if fd in t.indexMap {
      assert t'.free == t.free + [t.indexMap[fd]];
    }
  }

  /**
   No free index is mapped or free twice, and free slots are empty. Weaker than
   `Inverse`: it also holds after repeated or sentinel descriptors.
   */
  ghost predicate Separate(t: Table) {
    && NoDup(t.free)
    && Injective(t.indexMap)
    && (forall fd :: fd in t.indexMap ==> t.indexMap[fd] < |t.files| && t.indexMap[fd] !in t.free)
    && (forall i :: i in t.free ==> i < |t.files| && t.files[i] == SENTINEL)
  }

  /** Removing what was just inserted restores map, array and free stack. */
  lemma InsertThenRemove(t: Table, fd: int)
    requires Separate(t) && fd !in t.indexMap && t.free != []
    ensures Remove(Insert(t, fd).0, fd).0 == t
  {
    var index := t.free[|t.free| - 1];
    assert index in t.free;
    assert t.indexMap[fd := index] - {fd} == t.indexMap;
    assert t.free[..|t.free| - 1] + [index] == t.free;
    assert t.files[index := fd][index := SENTINEL] == t.files;
  }

  datatype TableStep = InsertFd(fd: int) | RemoveFd(fd: int)

  function TableNext(t: Table, step: TableStep): Table {
    match step
    case InsertFd(fd) => Insert(t, fd).0
    case RemoveFd(fd) => Remove(t, fd).0
  }

  function TableExec(t: Table, steps: seq<TableStep>): Table {
    if steps == [] then t else TableNext(TableExec(t, steps[..|steps| - 1]), steps[|steps| - 1])
  }

  /** Every sequence of insertions (of real descriptors) and removals keeps a consistent table consistent. */
  lemma {:induction false} TableRun(t: Table, steps: seq<TableStep>)
    requires Inverse(t)
    requires forall i :: 0 <= i < |steps| && steps[i].InsertFd? ==> steps[i].fd != SENTINEL
    ensures Inverse(TableExec(t, steps))
    ensures |TableExec(t, steps).indexMap| + |TableExec(t, steps).free| == |t.files|
    ensures |TableExec(t, steps).files| == |t.files|
  {
    if steps == [] {
      InverseCounts(t);
    } else {
      var n := |steps| - 1;
      TableRun(t, steps[..n]);
      var before := TableExec(t, steps[..n]);
      match steps[n]
      case InsertFd(fd) => InsertKeepsIff(before, fd);
      case RemoveFd(fd) => RemoveKeeps(before, fd);
      InverseCounts(TableExec(t, steps));
    }
  }

  // ---------------------------------------------------------------------------
  // Building a table from a slice
  // ---------------------------------------------------------------------------

  /** The slot a slice gives to each descriptor; a repeated descriptor keeps its last position. */
  function SliceMap(fds: seq<int>, n: nat): map<int, nat>
    requires n <= |fds|
  {
    if n == 0 then map[]
    else if fds[n - 1] == SENTINEL then SliceMap(fds, n - 1)
    else SliceMap(fds, n - 1)[fds[n - 1] := n - 1]
  }

  predicate SlotFree(fds: seq<int>, i: nat) {
    i >= |fds| || fds[i] == SENTINEL
  }

  /** The free slots among `low..capacity`, highest first. */
  function SliceFree(fds: seq<int>, low: nat, capacity: nat): seq<nat>
    requires low <= capacity
    decreases capacity - low
  {
    if low == capacity then []
    else SliceFree(fds, low + 1, capacity) + if SlotFree(fds, low) then [low] else []
  }

  function FromSlice(capacity: nat, fds: seq<int>): Table {
    var n := if |fds| < capacity then |fds| else capacity;
    Table(SliceMap(fds, n), seq(capacity, i requires 0 <= i < capacity => if i < |fds| then fds[i] else SENTINEL), SliceFree(fds, 0, capacity))
  }

  lemma {:induction false} SliceMapMeaning(fds: seq<int>, n: nat)
    requires n <= |fds|
    ensures forall fd :: fd in SliceMap(fds, n) <==> fd != SENTINEL && fd in fds[..n]
    ensures forall fd :: fd in SliceMap(fds, n) ==>
              && SliceMap(fds, n)[fd] < n && fds[SliceMap(fds, n)[fd]] == fd
              && forall i :: 0 <= i < n && fds[i] == fd ==> i <= SliceMap(fds, n)[fd]
  {
    if n > 0 {
      SliceMapMeaning(fds, n - 1);
      assert fds[..n] == fds[..n - 1] + [fds[n - 1]];
    }
  }

  lemma {:induction false} SliceFreeMeaning(fds: seq<int>, low: nat, capacity: nat)
    requires low <= capacity
    ensures forall i: nat :: i in SliceFree(fds, low, capacity) <==> low <= i < capacity && SlotFree(fds, i)
    ensures NoDup(SliceFree(fds, low, capacity))
    decreases capacity - low
  {
    if low < capacity {
      SliceFreeMeaning(fds, low + 1, capacity);
      assert low !in SliceFree(fds, low + 1, capacity);
    }
  }

  ghost predicate DistinctFds(fds: seq<int>, n: nat)
    requires n <= |fds|
  {
    forall i, j :: 0 <= i < j < n && fds[i] != SENTINEL ==> fds[i] != fds[j]
  }

  /** A slice gives a consistent table exactly when the descriptors it fits in are distinct (sentinels aside). */
  lemma FromSliceIff(capacity: nat, fds: seq<int>)
    ensures Inverse(FromSlice(capacity, fds))
      <==> DistinctFds(fds, if |fds| < capacity then |fds| else capacity)
  {
    var n := if |fds| < capacity then |fds| else capacity;
    var t := FromSlice(capacity, fds);
    SliceMapMeaning(fds, n);
    SliceFreeMeaning(fds, 0, capacity);
    forall i | 0 <= i < n ensures t.files[i] == fds[i] && (fds[i] != SENTINEL ==> fds[i] in t.indexMap) {
      assert fds[..n][i] == fds[i];
    }
    if DistinctFds(fds, n) {
      forall i | 0 <= i < |t.files| && t.files[i] != SENTINEL ensures t.files[i] in t.indexMap && t.indexMap[t.files[i]] == i {
        assert i < n && i <= t.indexMap[fds[i]];
      }
    }
  }

  // ---------------------------------------------------------------------------
  // The kernel's copy
  // ---------------------------------------------------------------------------

  datatype FileError = InitFailed | UpdateFailed | TableFull | RegisterFailed | UnregisterFailed

  /** The optional table beside the kernel's registered files; no table means the kernel's array is irrelevant. */
  datatype Mirror = Mirror(table: Option<Table>, kernel: seq<int>)

  /** A kernel update fails when the kernel says so and whenever the slot does not exist. */
  function KernelUpdate(kernel: seq<int>, index: nat, fd: int, ok: bool): Option<seq<int>> {
    if ok && index < |kernel| then Some(kernel[index := fd]) else None
  }

  function RegisterFile(m: Mirror, fd: int, initOk: bool, updateOk: bool): (Mirror, Result<nat, FileError>) {
    if m.table.None? && !initOk then (m, Failure(InitFailed))
    else
      var m1 := if m.table.None? then Mirror(Some(NewTable(DEFAULT_RING_SIZE)), NewTable(DEFAULT_RING_SIZE).files) else m;
      var t := m1.table.value;
      if fd in t.indexMap then (m1, Success(t.indexMap[fd]))
      else
        var (t', got) := Insert(t, fd);
        if got.None? then (m1, Failure(TableFull))
        else
          var k := KernelUpdate(m1.kernel, got.value, fd, updateOk);
          if k.Some? then (Mirror(Some(t'), k.value), Success(got.value))
          else (m1.(table := Some(Remove(t', fd).0)), Failure(UpdateFailed))
  }

  function UnregisterFile(m: Mirror, fd: int, updateOk: bool): (Mirror, Result<(), FileError>) {
    if m.table.None? then (m, Success(()))
    else
      var (t', got) := Remove(m.table.value, fd);
      if got.None? then (m, Success(()))
      else
        var k := KernelUpdate(m.kernel, got.value, SENTINEL, updateOk);
        if k.Some? then (Mirror(Some(t'), k.value), Success(()))
        else (m.(table := Some(t')), Failure(UnregisterFailed))
  }

  function RegisterFds(m: Mirror, fds: seq<int>, ok: bool): (Mirror, Result<(), FileError>) {
    if !ok then (m, Failure(RegisterFailed))
    else
      var capacity := (if |fds| > DEFAULT_RING_SIZE then |fds| else DEFAULT_RING_SIZE) % U32;
      (Mirror(Some(FromSlice(capacity, fds)), fds), Success(()))
  }

  function UnregisterFds(m: Mirror, ok: bool): (Mirror, Result<(), FileError>) {
    if m.table.None? then (m, Success(()))
    else if !ok then (m, Failure(UnregisterFailed))
    else (Mirror(None, []), Success(()))
  }

  function LookupFixed(m: Mirror, fd: int): Option<nat> {
    if m.table.Some? && fd in m.table.value.indexMap then Some(m.table.value.indexMap[fd]) else None
  }

  /** What submissions rely on: a looked-up index is the kernel slot of that very descriptor. */
  ghost predicate Mirrored(m: Mirror) {
    forall fd :: LookupFixed(m, fd).Some? ==> LookupFixed(m, fd).value < |m.kernel| && m.kernel[LookupFixed(m, fd).value] == fd
  }

  ghost predicate MirrorInv(m: Mirror) {
    Mirrored(m) && (m.table.Some? ==> Separate(m.table.value))
  }

  datatype FileStep =
    | DoRegisterFile(fd: int, initOk: bool, updateOk: bool)
    | DoUnregisterFile(fd: int, updateOk: bool)
    | DoRegisterFds(fds: seq<int>, ok: bool)
    | DoUnregisterFds(ok: bool)

  function FileNext(m: Mirror, step: FileStep): Mirror {
    match step
    case DoRegisterFile(fd, initOk, updateOk) => RegisterFile(m, fd, initOk, updateOk).0
    case DoUnregisterFile(fd, updateOk) => UnregisterFile(m, fd, updateOk).0
    case DoRegisterFds(fds, ok) => RegisterFds(m, fds, ok).0
    case DoUnregisterFds(ok) => UnregisterFds(m, ok).0
  }

  function FileExec(m: Mirror, steps: seq<FileStep>): Mirror {
    if steps == [] then m else FileNext(FileExec(m, steps[..|steps| - 1]), steps[|steps| - 1])
  }

  lemma InsertSeparate(t: Table, fd: int)
    requires Separate(t)
    ensures Separate(Insert(t, fd).0)
    ensures fd !in t.indexMap && t.free != [] ==>
              forall g :: g in t.indexMap ==> t.indexMap[g] != Insert(t, fd).1.value
  {
    if fd !in t.indexMap && t.free != [] {
      var index := t.free[|t.free| - 1];
      assert index in t.free;
      var rest := t.free[..|t.free| - 1];
      assert t.free == rest + [index];
      assert index !in rest;
      forall i | i in rest ensures i in t.free && i != index {
        assert i in rest + [index];
      }
    }
  }

  lemma RemoveSeparate(t: Table, fd: int)
    requires Separate(t)
    ensures Separate(Remove(t, fd).0)
  {
    if fd in t.indexMap {
      assert Remove(t, fd).0.free == t.free + [t.indexMap[fd]];
    }
  }

  lemma NewTableSeparate(capacity: nat)
    ensures Separate(NewTable(capacity))
  {
    NewTableInverse(capacity);
  }

  lemma RegisterFileMirrors(m: Mirror, fd: int, initOk: bool, updateOk: bool)
    requires MirrorInv(m)
    ensures MirrorInv(RegisterFile(m, fd, initOk, updateOk).0)
  {
    if m.table.Some? || initOk {
      var m1 := if m.table.None? then Mirror(Some(NewTable(DEFAULT_RING_SIZE)), NewTable(DEFAULT_RING_SIZE).files) else m;
      var t := m1.table.value;
      NewTableSeparate(DEFAULT_RING_SIZE);
      assert MirrorInv(m1);
      if fd !in t.indexMap && t.free != [] {
        var (t', got) := Insert(t, fd);
        InsertSeparate(t, fd);
        RemoveSeparate(t', fd);
        var k := KernelUpdate(m1.kernel, got.value, fd, updateOk);
        assert RegisterFile(m, fd, initOk, updateOk).0
               == if k.Some? then Mirror(Some(t'), k.value) else m1.(table := Some(Remove(t', fd).0));
        forall g | g in t.indexMap ensures t.indexMap[g] < |m1.kernel| && m1.kernel[t.indexMap[g]] == g {
          assert LookupFixed(m1, g).Some?;
        }
      }
    }
  }

  lemma UnregisterFileMirrors(m: Mirror, fd: int, updateOk: bool)
    requires MirrorInv(m)
    ensures MirrorInv(UnregisterFile(m, fd, updateOk).0)
  {
    if m.table.Some? {
      var t := m.table.value;
      RemoveSeparate(t, fd);
      forall g | g in t.indexMap ensures t.indexMap[g] < |m.kernel| && m.kernel[t.indexMap[g]] == g {
        assert LookupFixed(m, g).Some?;
      }
    }
  }

  lemma RegisterFdsMirrors(m: Mirror, fds: seq<int>, ok: bool)
    requires MirrorInv(m)
    ensures MirrorInv(RegisterFds(m, fds, ok).0)
  {
    var capacity := (if |fds| > DEFAULT_RING_SIZE then |fds| else DEFAULT_RING_SIZE) % U32;
    var n := if |fds| < capacity then |fds| else capacity;
    SliceMapMeaning(fds, n);
    SliceFreeMeaning(fds, 0, capacity);
  }

  /** In every run, whatever updates the kernel refuses, a looked-up index is the kernel slot holding that descriptor. */
  lemma {:induction false} MirroredInEveryRun(steps: seq<FileStep>)
    ensures MirrorInv(FileExec(Mirror(None, []), steps))
  {
    if steps != [] {
      var n := |steps| - 1;
      MirroredInEveryRun(steps[..n]);
      var before := FileExec(Mirror(None, []), steps[..n]);
      match steps[n]
      case DoRegisterFile(fd, initOk, updateOk) => RegisterFileMirrors(before, fd, initOk, updateOk);
      case DoUnregisterFile(fd, updateOk) => UnregisterFileMirrors(before, fd, updateOk);
      case DoRegisterFds(fds, ok) => RegisterFdsMirrors(before, fds, ok);
      case DoUnregisterFds(ok) =>
    }
  }

  /**
   After any run, a registration the kernel refuses leaves map, array, free stack and
   kernel as they were, unless it was the one that had to create the table first.
   */
  lemma RefusedRegistrationRollsBack(steps: seq<FileStep>, fd: int, initOk: bool, updateOk: bool)
    requires RegisterFile(FileExec(Mirror(None, []), steps), fd, initOk, updateOk).1.Failure?
    ensures var m := FileExec(Mirror(None, []), steps);
            RegisterFile(m, fd, initOk, updateOk).0 == m <==> m.table.Some? || !initOk
  {
    MirroredInEveryRun(steps);
    var m := FileExec(Mirror(None, []), steps);
    if m.table.None? {
      NewTableInverse(DEFAULT_RING_SIZE);
      return;
    }
    var t := m.table.value;
    if fd !in t.indexMap && t.free != [] {
      InsertThenRemove(t, fd);
    }
  }

  // ---------------------------------------------------------------------------
  // What each call does to lookups and to the kernel's slots
  // ---------------------------------------------------------------------------

  /** All descriptors but one look up as before. */
  ghost predicate OthersLookUp(m: Mirror, m': Mirror, fd: int) {
    forall g :: g != fd ==> LookupFixed(m', g) == LookupFixed(m, g)
  }

  /** The same number of slots, and all but one hold what they held. */
  predicate OnlySlot(kernel: seq<int>, kernel': seq<int>, index: nat) {
    |kernel'| == |kernel| && forall i :: 0 <= i < |kernel| && i != index ==> kernel'[i] == kernel[i]
  }

  /** The kernel's slots, which are all empty once the table has been made. */
  function SlotsOf(m: Mirror): seq<int> {
    if m.table.Some? then m.kernel else seq(DEFAULT_RING_SIZE, i => SENTINEL)
  }

  /** A successful registration makes the descriptor look up to the returned index, whose slot holds it, and touches nothing else. */
  lemma RegisterMeans(m: Mirror, fd: int, initOk: bool, updateOk: bool)
    requires MirrorInv(m)
    ensures var (m', r) := RegisterFile(m, fd, initOk, updateOk);
            r.Success? ==>
              && LookupFixed(m', fd) == Some(r.value) && r.value < |m'.kernel| && m'.kernel[r.value] == fd
              && OthersLookUp(m, m', fd) && OnlySlot(SlotsOf(m), m'.kernel, r.value)
              && (LookupFixed(m, fd).Some? ==> m' == m)
              && (LookupFixed(m, fd).None? && m.table.Some? ==> m.table.value.free[..|m.table.value.free| - 1] + [r.value] == m.table.value.free)
              && (m.table.None? ==> r.value == 0)
  {
    RegisterFileMirrors(m, fd, initOk, updateOk);
    if m.table.Some? && fd in m.table.value.indexMap {
      assert LookupFixed(m, fd).Some?;
    } else if m.table.Some? && m.table.value.free != [] {
      var free := m.table.value.free;
      assert free == free[..|free| - 1] + [free[|free| - 1]];
    }
  }

  /** When and how a registration fails; then every descriptor looks up as before and no slot has changed. */
  lemma RegisterFails(m: Mirror, fd: int, initOk: bool, updateOk: bool)
    requires MirrorInv(m)
    ensures var (m', r) := RegisterFile(m, fd, initOk, updateOk);
            && (r == Failure(InitFailed) <==> m.table.None? && !initOk)
            && (r == Failure(TableFull) <==> m.table.Some? && LookupFixed(m, fd).None? && m.table.value.free == [])
            && (r == Failure(UpdateFailed) <==>
                  && LookupFixed(m, fd).None?
                  && (if m.table.None? then initOk && !updateOk
                      else m.table.value.free != [] && !(updateOk && m.table.value.free[|m.table.value.free| - 1] < |m.kernel|)))
            && (r.Failure? ==> (forall g :: LookupFixed(m', g) == LookupFixed(m, g)) && (m'.kernel == m.kernel || m.table.None?))
  {
    if m.table.None? && initOk {
      assert NewTable(DEFAULT_RING_SIZE).free[DEFAULT_RING_SIZE - 1] == 0;
    } else if m.table.Some? && fd !in m.table.value.indexMap && m.table.value.free != [] {
      InsertThenRemove(m.table.value, fd);
    }
  }

  /** Unregistering makes the descriptor look up to nothing; its slot is emptied exactly when the kernel agrees, and reused first. */
  lemma UnregisterMeans(m: Mirror, fd: int, updateOk: bool)
    requires MirrorInv(m)
    ensures var (m', r) := UnregisterFile(m, fd, updateOk);
            && LookupFixed(m', fd).None? && OthersLookUp(m, m', fd)
            && match LookupFixed(m, fd)
               case None => m' == m && r == Success(())
               case Some(index) =>
                 && r == (if updateOk then Success(()) else Failure(UnregisterFailed))
                 && OnlySlot(m.kernel, m'.kernel, index) && index < |m'.kernel|
                 && m'.kernel[index] == (if updateOk then SENTINEL else fd)
                 && m'.table.Some? && m'.table.value.free == m.table.value.free + [index]
  {
    assert LookupFixed(m, fd).Some? ==> LookupFixed(m, fd).value < |m.kernel|;
  }

  /** After an accepted slice every descriptor in it looks up to its last position, and the kernel has the slice. */
  lemma RegisterSliceMeans(m: Mirror, fds: seq<int>, ok: bool)
    requires |fds| < U32
    ensures var (m', r) := RegisterFds(m, fds, ok);
            if !ok then m' == m && r == Failure(RegisterFailed)
            else
              && r == Success(()) && m'.kernel == fds
              && forall fd ::
                   && (LookupFixed(m', fd).Some? <==> fd != SENTINEL && fd in fds)
                   && (LookupFixed(m', fd).Some? ==> IsLast(fds, LookupFixed(m', fd).value, fd))
  {
    SliceMapMeaning(fds, |fds|);
    assert fds[..|fds|] == fds;
  }

  /** The last position of a descriptor in a slice. */
  predicate IsLast(fds: seq<int>, i: nat, fd: int) {
    i < |fds| && fds[i] == fd && forall j :: i < j < |fds| ==> fds[j] != fd
  }

  /** The table made for an accepted slice has at least 4096 slots; the free ones are those without a descriptor, lowest on top. */
  lemma RegisterSliceTable(m: Mirror, fds: seq<int>)
    requires |fds| < U32
    ensures var m' := RegisterFds(m, fds, true).0;
            m'.table.Some? && SliceTable(fds, m'.table.value)
  {
    var capacity := if |fds| > DEFAULT_RING_SIZE then |fds| else DEFAULT_RING_SIZE;
    assert capacity % U32 == capacity;
    SliceFreeMeaning(fds, 0, capacity);
    SliceFreeOrder(fds, 0, capacity);
  }

  ghost predicate SliceTable(fds: seq<int>, t: Table) {
    && |t.files| == (if |fds| > 4096 then |fds| else 4096)
    && (forall i: nat :: i in t.free <==> i < |t.files| && (i >= |fds| || fds[i] == SENTINEL))
    && Descending(t.free)
  }

  lemma {:induction false} SliceFreeOrder(fds: seq<int>, low: nat, capacity: nat)
    requires low <= capacity
    ensures Descending(SliceFree(fds, low, capacity))
    decreases capacity - low
  {
    if low < capacity {
      SliceFreeOrder(fds, low + 1, capacity);
      SliceFreeMeaning(fds, low + 1, capacity);
      DescendingAdd(SliceFree(fds, low + 1, capacity), low);
    }
  }

  predicate Descending(s: seq<nat>) {
    forall i, j :: 0 <= i < j < |s| ==> s[i] > s[j]
  }

  lemma DescendingAdd(s: seq<nat>, x: nat)
    requires Descending(s) && forall y :: y in s ==> y > x
    ensures Descending(s + [x])
  {
    forall i, j | 0 <= i < j < |s + [x]| ensures (s + [x])[i] > (s + [x])[j] {
      assert s[i] in s;
    }
  }

  /** After unregistering all, nothing looks up, unless the kernel refused, and then nothing has changed. */
  lemma UnregisterAllMeans(m: Mirror, ok: bool)
    ensures var (m', r) := UnregisterFds(m, ok);
            if m.table.Some? && !ok then m' == m && r == Failure(UnregisterFailed)
            else r == Success(()) && m'.table.None? && forall fd :: LookupFixed(m', fd).None?
  {
  }

  class FixedFdTable {
    var indexMap: map<int, nat>
    const files: array<int>
    var freeIndices: seq<nat>

    ghost function View(): Table
      reads this, files
    {
      Table(indexMap, files[..], freeIndices)
    }

    constructor New(capacity: nat)
      ensures View() == NewTable(capacity)
      ensures fresh(files)
    {
      files := new int[capacity](_ => SENTINEL);
      indexMap := map[];
      freeIndices := [];
      new;
      var i := capacity;
      while i > 0
        invariant i <= capacity && freeIndices == Reversed(capacity)[..capacity - i]
        invariant indexMap == map[] && fresh(files)
        invariant forall k :: 0 <= k < files.Length ==> files[k] == SENTINEL
      {
        i := i - 1;
        freeIndices := freeIndices + [i];
      }
    }

    constructor InitFromSlice(capacity: nat, fds: seq<int>)
      ensures View() == FromSlice(capacity, fds)
      ensures fresh(files)
    {
      files := new int[capacity](_ => SENTINEL);
      indexMap := map[];
      freeIndices := [];
      new;
      var i := 0;
      while i < |fds|
        invariant i <= |fds| && freeIndices == [] && fresh(files)
        invariant indexMap == SliceMap(fds, if i < capacity then i else capacity)
        invariant forall k :: 0 <= k < capacity ==> files[k] == if k < i then fds[k] else SENTINEL
      {
        if i < capacity {
          files[i] := fds[i];
          if fds[i] != SENTINEL {
            indexMap := indexMap[fds[i] := i];
          }
        }
        i := i + 1;
      }
      ghost var built := indexMap;
      i := capacity;
      while i > 0
        invariant i <= capacity && freeIndices == SliceFree(fds, i, capacity)
        invariant indexMap == built && fresh(files)
        invariant forall k :: 0 <= k < capacity ==> files[k] == if k < |fds| then fds[k] else SENTINEL
      {
        i := i - 1;
        if i >= |fds| || fds[i] == SENTINEL {
          freeIndices := freeIndices + [i];
        }
      }
      assert files[..] == FromSlice(capacity, fds).files;
    }

    method InsertFile(fd: int) returns (got: Option<nat>)
      requires Separate(View())
      modifies this, files
      ensures (View(), got) == Insert(old(View()), fd)
    {
      if fd in indexMap {
        return Some(indexMap[fd]);
      }
      if freeIndices == [] {
        return None;
      }
      var index := freeIndices[|freeIndices| - 1];
      assert index in View().free;
      freeIndices := freeIndices[..|freeIndices| - 1];
      indexMap := indexMap[fd := index];
      files[index] := fd;
      return Some(index);
    }

    method RemoveFile(fd: int) returns (got: Option<nat>)
      requires Separate(View())
      modifies this, files
      ensures (View(), got) == Remove(old(View()), fd)
    {
      if fd !in indexMap {
        return None;
      }
      var index := indexMap[fd];
      indexMap := indexMap - {fd};
      files[index] := SENTINEL;
      freeIndices := freeIndices + [index];
      return Some(index);
    }
  }

  /** The ring's registration methods; `kernel` is the kernel's side, whose answers are the boolean arguments. */
  class Ring {
    var registered: FixedFdTable?
    var kernel: seq<int>

    ghost function View(): Mirror
      reads this, registered, if registered == null then {} else {registered.files}
    {
      Mirror(if registered == null then None else Some(registered.View()), kernel)
    }

    constructor ()
      ensures View() == Mirror(None, [])
    {
      registered, kernel := null, [];
    }

    method RegisterFilesUpdate(index: nat, fd: int, ok: bool) returns (done: bool)
      modifies this`kernel
      ensures done <==> KernelUpdate(old(kernel), index, fd, ok).Some?
      ensures kernel == if done then KernelUpdate(old(kernel), index, fd, ok).value else old(kernel)
    {
      done := ok && index < |kernel|;
      if done {
        kernel := kernel[index := fd];
      }
    }

    method Register(fd: int, initOk: bool, updateOk: bool) returns (r: Result<nat, FileError>)
      requires MirrorInv(View())
      modifies this, registered, if registered == null then {} else {registered.files}
      ensures (View(), r) == RegisterFile(old(View()), fd, initOk, updateOk)
      ensures MirrorInv(View())
    {
      RegisterFileMirrors(View(), fd, initOk, updateOk);
      if registered == null {
        var table := new FixedFdTable.New(DEFAULT_RING_SIZE);
        if !initOk {
          return Failure(InitFailed);
        }
        NewTableSeparate(DEFAULT_RING_SIZE);
        kernel := table.files[..];
        registered := table;
      }
      if fd in registered.indexMap {
        return Success(registered.indexMap[fd]);
      }
      var t := registered;
      InsertSeparate(t.View(), fd);
      var got := t.InsertFile(fd);
      if got.None? {
        return Failure(TableFull);
      }
      var done := RegisterFilesUpdate(got.value, fd, updateOk);
      if done {
        return Success(got.value);
      }
      var _ := t.RemoveFile(fd);
      return Failure(UpdateFailed);
    }

    method Unregister(fd: int, updateOk: bool) returns (r: Result<(), FileError>)
      requires MirrorInv(View())
      modifies this, registered, if registered == null then {} else {registered.files}
      ensures (View(), r) == UnregisterFile(old(View()), fd, updateOk)
      ensures MirrorInv(View())
    {
      UnregisterFileMirrors(View(), fd, updateOk);
      if registered != null {
        var got := registered.RemoveFile(fd);
        if got.Some? {
          var done := RegisterFilesUpdate(got.value, SENTINEL, updateOk);
          if !done {
            return Failure(UnregisterFailed);
          }
        }
      }
      return Success(());
    }

    method RegisterSlice(fds: seq<int>, ok: bool) returns (r: Result<(), FileError>)
      requires MirrorInv(View())
      modifies this
      ensures (View(), r) == RegisterFds(old(View()), fds, ok)
      ensures MirrorInv(View())
    {
      RegisterFdsMirrors(View(), fds, ok);
      if !ok {
        return Failure(RegisterFailed);
      }
      kernel := fds;
      var capacity := (if |fds| > DEFAULT_RING_SIZE then |fds| else DEFAULT_RING_SIZE) % U32;
      registered := new FixedFdTable.InitFromSlice(capacity, fds);
      return Success(());
    }

    method UnregisterAll(ok: bool) returns (r: Result<(), FileError>)
      modifies this
      ensures (View(), r) == UnregisterFds(old(View()), ok)
    {
      if registered != null {
        if !ok {
          return Failure(UnregisterFailed);
        }
        registered, kernel := null, [];
      }
      return Success(());
    }
  }
}
