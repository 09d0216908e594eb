/** The pre-allocated buffer pool: index bookkeeping, the memory region, and the client's side of the contract. */
module Buffers {
  import opened Indices
  import opened Bits

  const QUARANTINE_NANOS: nat := 1000

  datatype Quarantined = Quarantined(index: nat, releaseTime: nat)

  /** `free` and `quarantine` are queues: taken from the front, returned at the back. */
  datatype Pool = Pool(count: nat, size: nat, free: seq<nat>, quarantine: seq<Quarantined>, generation: nat, mem: seq<byte>)

  /** Released at least a microsecond ago. */
  predicate Ready(q: Quarantined, now: nat): (r: bool)
    ensures r <==> now >= q.releaseTime + 1000
  {
    (if now >= q.releaseTime then now - q.releaseTime else 0) >= QUARANTINE_NANOS
  }

  /** Length of the longest prefix whose entries have all served their quarantine. */
  function ReadyPrefix(q: seq<Quarantined>, now: nat): (k: nat)
    ensures k <= |q|
    ensures forall i :: 0 <= i < k ==> Ready(q[i], now)
    ensures k < |q| ==> !Ready(q[k], now)
  {
    if q == [] || !Ready(q[0], now) then 0 else 1 + ReadyPrefix(q[1..], now)
  }

  /** What is left in quarantine when the first `k` have gone: the next, too young, has been put back behind the rest. */
  function Rotated(q: seq<Quarantined>, k: nat): (r: seq<Quarantined>)
    requires k <= |q|
    ensures k == |q| ==> r == []
    ensures k < |q| ==> |r| == |q| - k && r[|r| - 1] == q[k] && forall i :: 0 <= i < |r| - 1 ==> r[i] == q[k + 1 + i]
  {
    if k < |q| then q[k + 1..] + [q[k]] else []
  }

  function IndicesOf(q: seq<Quarantined>): (s: seq<nat>)
    ensures |s| == |q| && forall i :: 0 <= i < |q| ==> s[i] == q[i].index
  {
    seq(|q|, i requires 0 <= i < |q| => q[i].index)
  }

  function Reclaim(p: Pool, now: nat): Pool {
    var q, k := p.quarantine, ReadyPrefix(p.quarantine, now);
    p.(free := p.free + IndicesOf(q[..k]), quarantine := Rotated(q, k))
  }

  function Acquire(p: Pool, now: nat): (Pool, Option<nat>) {
    var r := Reclaim(p, now);
    if r.free == [] then (r, None) else (r.(free := r.free[1..]), Some(r.free[0]))
  }

  /** Something is free, or becomes so by reclaiming. */
  predicate CanAcquire(p: Pool, now: nat) {
    p.free != [] || (p.quarantine != [] && Ready(p.quarantine[0], now))
  }

  function Release(p: Pool, index: nat, generation: nat): Pool {
    if generation != p.generation then p else p.(free := p.free + [index])
  }

  function BumpGeneration(p: Pool): Pool {
    p.(generation := (p.generation + 1) % U64)
  }

  /** A fresh pool; the free list is filled from a 16-bit loop bound. None is a failed allocation. */
  function NewPool(size: nat, count: nat, mmapOk: bool): Option<Pool> {
    if size * count >= U64 || !mmapOk then None
    else Some(Pool(count, size, Range(count % U16), [], 1, seq(size * count, i => 0)))
  }

  /** Every index the pool could still hand out, now or after quarantine. */
  function Available(p: Pool): seq<nat> {
    p.free + IndicesOf(p.quarantine)
  }

  lemma IndicesOfConcat(a: seq<Quarantined>, b: seq<Quarantined>)
    ensures IndicesOf(a + b) == IndicesOf(a) + IndicesOf(b)
  {
  }

  lemma ReclaimKeeps(p: Pool, now: nat)
    ensures multiset(Available(Reclaim(p, now))) == multiset(Available(p))
  {
    var q, k := p.quarantine, ReadyPrefix(p.quarantine, now);
    if k < |q| {
      var ready, young, rest := q[..k], [q[k]], q[k + 1..];
      assert q == ready + (young + rest);
      IndicesOfConcat(ready, young + rest);
      IndicesOfConcat(young, rest);
      IndicesOfConcat(rest, young);
      Rotate(p.free, IndicesOf(ready), IndicesOf(young), IndicesOf(rest));
    } else {
      assert q[..k] == q;
      assert Available(Reclaim(p, now)) == Available(p);
    }
  }

  lemma Rotate(a: seq<nat>, b: seq<nat>, c: seq<nat>, d: seq<nat>)
    ensures multiset(a + b + (d + c)) == multiset(a + (b + (c + d)))
  {
    assert a + b + (c + d) == a + (b + (c + d));
  }

  /** Acquiring moves one index out of the pool, or none when nothing is free after reclaiming. */
  lemma AcquireTakes(p: Pool, now: nat)
    ensures var (p', got) := Acquire(p, now);
            && (got.Some? ==> multiset(Available(p)) == multiset(Available(p')) + multiset{got.value})
            && (got.None? ==> multiset(Available(p)) == multiset(Available(p')))
            && (got.Some? <==> CanAcquire(p, now))
            && p'.mem == p.mem && p'.count == p.count && p'.size == p.size && p'.generation == p.generation
  {
    ReclaimKeeps(p, now);
    var r := Reclaim(p, now);
    if r.free != [] {
      SplitFirst(r.free, IndicesOf(r.quarantine));
    }
  }

  lemma AcquiresIff(p: Pool, now: nat)
    ensures Acquire(p, now).1.Some? <==> CanAcquire(p, now)
  {
    AcquireTakes(p, now);
  }

  /** What is handed out is the first of what was free, followed by what has served its quarantine. */
  lemma AcquireOldest(p: Pool, now: nat)
    ensures var (p', got) := Acquire(p, now);
            var k := ReadyPrefix(p.quarantine, now);
            && (if got.Some? then [got.value] + p'.free else []) == p.free + IndicesOf(p.quarantine[..k])
            && (got.None? ==> p'.free == [])
            && p'.quarantine == Rotated(p.quarantine, k)
  {
    var r := Reclaim(p, now);
    if r.free != [] {
      assert r.free == [r.free[0]] + r.free[1..];
    }
  }

  lemma SplitFirst(a: seq<nat>, b: seq<nat>)
    requires a != []
    ensures multiset(a + b) == multiset(a[1..] + b) + multiset{a[0]}
  {
    assert a + b == [a[0]] + (a[1..] + b);
  }

  lemma ReleaseReturns(p: Pool, index: nat, generation: nat)
    ensures multiset(Available(Release(p, index, generation)))
            == multiset(Available(p)) + if generation == p.generation then multiset{index} else multiset{}
  {
  }

  /** The 16-bit loop bound fills the free list with all indices exactly when the count fits 16 bits. */
  lemma NewCoversIff(size: nat, count: nat)
    requires size * count < U64
    ensures Partition(count, Available(NewPool(size, count, true).value), map[], multiset{}) <==> count < U16
  {
    var free := Available(NewPool(size, count, true).value);
    assert free == Range(count % U16);
    if count >= U16 {
      assert |multiset(free)| < |multiset(Range(count))|;
    }
  }

  // ---------------------------------------------------------------------------
  // Runs of the pool with clients that give back only what they hold
  // ---------------------------------------------------------------------------

  /** `held` is what clients hold; `lost` is what they returned under a stale generation. */
  datatype Usage = Usage(pool: Pool, held: multiset<nat>, lost: multiset<nat>)

  datatype PoolStep = DoAcquire(now: nat) | DoRelease(index: nat, generation: nat) | DoBump

  predicate ReleaseAllowed(u: Usage, step: PoolStep) {
    step.DoRelease? ==> step.index in u.held
  }

  function PoolNext(u: Usage, step: PoolStep): Usage {
    match step
    case DoAcquire(now) =>
      var (p, got) := Acquire(u.pool, now);
      if got.Some? then u.(pool := p, held := u.held + multiset{got.value}) else u.(pool := p)
    case DoRelease(index, generation) =>
      var u' := u.(pool := Release(u.pool, index, generation), held := u.held - multiset{index});
      if generation == u.pool.generation then u' else u'.(lost := u.lost + multiset{index})
    case DoBump => u.(pool := BumpGeneration(u.pool))
  }

  ghost predicate Sound(u: Usage) {
    Partition(u.pool.count, Available(u.pool), map[], u.held + u.lost)
  }

  /** The states a run passes through, first to last. */
  ghost predicate PoolRun(states: seq<Usage>, steps: seq<PoolStep>) {
    && |states| == |steps| + 1
    && forall i :: 0 <= i < |steps| ==> ReleaseAllowed(states[i], steps[i]) && states[i + 1] == PoolNext(states[i], steps[i])
  }

  lemma PoolStepSound(u: Usage, step: PoolStep)
    requires Sound(u) && ReleaseAllowed(u, step)
    ensures Sound(PoolNext(u, step))
  {
    var a, v := multiset(Available(u.pool)), Values(map[]);
    match step
    case DoAcquire(now) =>
      AcquireTakes(u.pool, now);
      var (p, got) := Acquire(u.pool, now);
      if got.Some? {
        TakeOne(multiset(Available(p)), v, u.held, u.lost, got.value);
      }
    case DoRelease(index, generation) =>
      ReleaseReturns(u.pool, index, generation);
      ReturnOne(a, v, u.held, u.lost, index);
    case DoBump =>
  }

  lemma TakeOne(a: multiset<nat>, v: multiset<nat>, held: multiset<nat>, lost: multiset<nat>, x: nat)
    ensures a + multiset{x} + v + (held + lost) == a + v + (held + multiset{x} + lost)
  {
  }

  lemma ReturnOne(a: multiset<nat>, v: multiset<nat>, held: multiset<nat>, lost: multiset<nat>, x: nat)
    requires x in held
    ensures a + multiset{x} + v + (held - multiset{x} + lost) == a + v + (held + lost)
    ensures a + v + (held - multiset{x} + (lost + multiset{x})) == a + v + (held + lost)
  {
  }

  lemma {:induction false} PoolRunSound(states: seq<Usage>, steps: seq<PoolStep>)
    requires PoolRun(states, steps) && Sound(states[0])
    ensures Sound(states[|steps|])
  {
    var n := |steps|;
    if n > 0 {
      PoolRunSound(states[..n], steps[..n - 1]);
      var before := states[n - 1];
      assert ReleaseAllowed(before, steps[n - 1]) && states[n] == PoolNext(before, steps[n - 1]);
      PoolStepSound(before, steps[n - 1]);
    }
  }

  /** The indices handed out by the first `n` steps of a run, in order. */
  ghost function HandedOut(states: seq<Usage>, steps: seq<PoolStep>, n: nat): seq<nat>
    requires n <= |steps| < |states|
  {
    if n == 0 then []
    else
      var step, p := steps[n - 1], states[n - 1].pool;
      HandedOut(states, steps, n - 1) + if step.DoAcquire? && p.free != [] then [p.free[0]] else []
  }

  /** The indices given back under the current generation by the first `n` steps, in order. */
  ghost function GivenBack(states: seq<Usage>, steps: seq<PoolStep>, n: nat): seq<nat>
    requires n <= |steps| < |states|
  {
    if n == 0 then []
    else
      var step, p := steps[n - 1], states[n - 1].pool;
      GivenBack(states, steps, n - 1) + if step.DoRelease? && step.generation == p.generation then [step.index] else []
  }

  lemma PoolStepFifo(u: Usage, step: PoolStep)
    requires u.pool.quarantine == []
    ensures var p' := PoolNext(u, step).pool;
            && p'.quarantine == []
            && p'.free == (if step.DoAcquire? && u.pool.free != [] then u.pool.free[1..]
                           else if step.DoRelease? && step.generation == u.pool.generation then u.pool.free + [step.index]
                           else u.pool.free)
            && (step.DoAcquire? ==> Acquire(u.pool, step.now).1 == if u.pool.free == [] then None else Some(u.pool.free[0]))
  {
    if step.DoAcquire? {
      assert Reclaim(u.pool, step.now).free == u.pool.free;
    }
  }

  /** Oldest first: with nothing in quarantine, what was handed out, then the free list, is what was free at first, then what came back. */
  lemma {:induction false} PoolIsFifo(states: seq<Usage>, steps: seq<PoolStep>, n: nat)
    requires PoolRun(states, steps) && n <= |steps| && states[0].pool.quarantine == []
    ensures states[n].pool.quarantine == []
    ensures HandedOut(states, steps, n) + states[n].pool.free == states[0].pool.free + GivenBack(states, steps, n)
  {
    if n > 0 {
      PoolIsFifo(states, steps, n - 1);
      var u, step := states[n - 1], steps[n - 1];
      assert states[n - 1 + 1] == PoolNext(u, step);
      PoolStepFifo(u, step);
      QueueTurns(HandedOut(states, steps, n - 1), u.pool.free, states[0].pool.free, GivenBack(states, steps, n - 1),
                 if step.DoRelease? then step.index else 0);
    }
  }

  /**
   The pool's two queues hold no index twice and none that a client holds, and
   the statistics subtraction is exactly the number of indices held or lost.
   */
  lemma SoundUsage(u: Usage)
    requires Sound(u)
    ensures NoDup(Available(u.pool))
    ensures forall v: nat :: v in Available(u.pool) ==> v < u.pool.count && v !in u.held && v !in u.lost
    ensures u.pool.count - |u.pool.free| - |u.pool.quarantine| == |u.held| + |u.lost|
  {
    PartitionMeaning(u.pool.count, Available(u.pool), map[], u.held + u.lost);
    assert |multiset(Range(u.pool.count))| == u.pool.count;
    assert |multiset(Available(u.pool))| == |u.pool.free| + |u.pool.quarantine|;
  }

  predicate Stale(u: Usage, step: PoolStep) {
    step.DoRelease? && step.generation != u.pool.generation
  }

  /** The number of stale releases in a run. */
  ghost function StaleCount(states: seq<Usage>, steps: seq<PoolStep>): nat
    requires |states| == |steps| + 1
  {
    var n := |steps|;
    if n == 0 then 0
    else StaleCount(states[..n], steps[..n - 1]) + if Stale(states[n - 1], steps[n - 1]) then 1 else 0
  }

  lemma LostStep(u: Usage, step: PoolStep)
    ensures u.lost <= PoolNext(u, step).lost
    ensures |PoolNext(u, step).lost| == |u.lost| + if Stale(u, step) then 1 else 0
  {
  }

  /** Each stale release loses one index for good, and nothing else loses any. */
  lemma {:induction false} LostExactly(states: seq<Usage>, steps: seq<PoolStep>)
    requires PoolRun(states, steps)
    ensures states[0].lost <= states[|steps|].lost
    ensures |states[|steps|].lost| == |states[0].lost| + StaleCount(states, steps)
  {
    var n := |steps|;
    if n > 0 {
      LostExactly(states[..n], steps[..n - 1]);
      LostStep(states[n - 1], steps[n - 1]);
      assert states[n] == PoolNext(states[n - 1], steps[n - 1]);
    }
  }

  // ---------------------------------------------------------------------------
  // The memory region
  // ---------------------------------------------------------------------------

  function Min(a: nat, b: nat): nat {
    if a < b then a else b
  }

  predicate Fits(mem: seq<byte>, size: nat, index: nat) {
    index * size + size <= |mem|
  }

  /** The first `len` bytes of buffer `index`, clamped to the buffer. */
  function Slice(mem: seq<byte>, size: nat, index: nat, len: nat): seq<byte>
    requires Fits(mem, size, index)
  {
    mem[index * size..index * size + Min(len, size)]
  }

  /** The region after `data` is stored at the start of buffer `index`. */
  function Store(mem: seq<byte>, size: nat, index: nat, data: seq<byte>): (mem': seq<byte>)
    requires Fits(mem, size, index) && |data| <= size
    ensures |mem'| == |mem|
  {
    mem[..index * size] + data + mem[index * size + |data|..]
  }

  lemma BufferFits(mem: seq<byte>, size: nat, count: nat, index: nat)
    requires |mem| == size * count && index < count
    ensures Fits(mem, size, index)
  {
    assert size * count == (count - index - 1) * size + (index * size + size);
    assert (count - index - 1) * size >= 0;
  }

  /** Every byte of the region lies in exactly one buffer: buffers tile the region and never overlap. */
  lemma BuffersTile(size: nat, count: nat, offset: nat, index: nat)
    requires size > 0 && offset < size * count
    ensures offset / size < count
    ensures index * size <= offset < index * size + size <==> index == offset / size
  {
    var q, r := offset / size, offset % size;
    assert offset == q * size + r;
    if index * size <= offset < index * size + size {
      DivModUnique(offset, size, index, offset - index * size);
    }
    assert (q - count) * size == q * size - count * size;
    if q > count {
      MulGap(q - count, size);
    }
  }

  lemma BuffersApart(size: nat, low: nat, high: nat)
    requires low < high
    ensures low * size + size <= high * size
  {
    var gap := high - low - 1;
    assert high == low + 1 + gap;
    assert high * size == low * size + size + gap * size;
  }

  lemma SpliceElsewhere(mem: seq<byte>, at: nat, data: seq<byte>, from: nat, n: nat)
    requires at + |data| <= |mem| && from + n <= |mem|
    requires from + n <= at || at + |data| <= from
    ensures (mem[..at] + data + mem[at + |data|..])[from..from + n] == mem[from..from + n]
  {
  }

  lemma SpliceHere(mem: seq<byte>, at: nat, data: seq<byte>, n: nat)
    requires at + |data| <= |mem| && n <= |data|
    ensures (mem[..at] + data + mem[at + |data|..])[at..at + n] == data[..n]
  {
  }

  /** Storing changes exactly the bytes at the front of the buffer. */
  lemma StoreByte(mem: seq<byte>, size: nat, index: nat, data: seq<byte>, i: nat)
    requires Fits(mem, size, index) && |data| <= size && i < |mem|
    ensures Store(mem, size, index, data)[i]
            == if index * size <= i < index * size + |data| then data[i - index * size] else mem[i]
  {
  }

  lemma StoreSame(mem: seq<byte>, size: nat, index: nat, data: seq<byte>, len: nat)
    requires Fits(mem, size, index) && len <= |data| <= size
    ensures Slice(Store(mem, size, index, data), size, index, len) == data[..len]
  {
    SpliceHere(mem, index * size, data, len);
  }

  lemma StoreOther(mem: seq<byte>, size: nat, index: nat, data: seq<byte>, other: nat, len: nat)
    requires Fits(mem, size, index) && |data| <= size && Fits(mem, size, other) && other != index
    ensures Slice(Store(mem, size, index, data), size, other, len) == Slice(mem, size, other, len)
  {
    if other < index {
      BuffersApart(size, other, index);
    } else {
      BuffersApart(size, index, other);
    }
    SpliceElsewhere(mem, index * size, data, other * size, Min(len, size));
  }

  /** A store is read back from its own buffer and seen by no other. */
  lemma StoreLocal(mem: seq<byte>, size: nat, index: nat, data: seq<byte>, other: nat, len: nat)
    requires Fits(mem, size, index) && |data| <= size && Fits(mem, size, other)
    ensures other == index && len <= |data| ==> Slice(Store(mem, size, index, data), size, other, len) == data[..len]
    ensures other != index ==> Slice(Store(mem, size, index, data), size, other, len) == Slice(mem, size, other, len)
  {
    if other != index {
      StoreOther(mem, size, index, data, other, len);
    } else if len <= |data| {
      StoreSame(mem, size, index, data, len);
    }
  }

  /** The pool as an object: two queues, a generation counter and a fixed region. */
  class BufferPool {
    const size: nat
    const count: nat
    const region: array<byte>
    var free: seq<nat>
    var quarantine: seq<Quarantined>
    var generation: nat

    ghost function View(): Pool
      reads this, region
    {
      Pool(count, size, free, quarantine, generation, region[..])
    }

    /** A size that overflows or a failed mapping gives no pool. */
    static method Create(size: nat, count: nat, mmapOk: bool) returns (pool: BufferPool?)
      ensures pool == null <==> NewPool(size, count, mmapOk).None?
      ensures pool != null ==> fresh(pool) && fresh(pool.region) && Some(pool.View()) == NewPool(size, count, mmapOk)
    {
      if size * count >= U64 || !mmapOk {
        return null;
      }
      pool := new BufferPool(size, count);
    }

    constructor (size: nat, count: nat)
      requires size * count < U64
      ensures View() == NewPool(size, count, true).value
      ensures generation == 1 && quarantine == [] && |free| == count % U16 && forall i :: 0 <= i < |free| ==> free[i] == i
      ensures fresh(region)
    {
      this.size, this.count := size, count;
      region := new byte[size * count](_ => 0);
      quarantine, generation := [], 1;
      free := [];
      new;
      var i := 0;
      while i < count % U16
        invariant i <= count % U16 && free == Range(i)
        invariant quarantine == [] && generation == 1 && fresh(region)
        invariant forall k :: 0 <= k < region.Length ==> region[k] == 0
      {
        free := free + [i];
        i := i + 1;
      }
    }

    method AcquireBuffer(now: nat) returns (got: Option<nat>)
      modifies this
      ensures (View(), got) == Acquire(old(View()), now)
    {
      ReclaimQuarantined(now);
      if free == [] {
        return None;
      }
      got := Some(free[0]);
      free := free[1..];
    }

    method ReleaseBuffer(index: nat, generation: nat)
      modifies this
      ensures View() == Release(old(View()), index, generation)
    {
      if generation != this.generation {
        return;
      }
      free := free + [index];
    }

    method IncrementGeneration() returns (g: nat)
      modifies this
      ensures View() == BumpGeneration(old(View())) && g == generation
      ensures generation == (if old(generation) == U64 - 1 then 0 else (old(generation) + 1) % U64)
    {
      generation := (generation + 1) % U64;
      g := generation;
    }

    /** Reclaims from the front until an entry is still too young; that entry goes to the back. */
    method ReclaimQuarantined(now: nat)
      modifies this
      ensures View() == Reclaim(old(View()), now)
      ensures var k := ReadyPrefix(old(quarantine), now);
              free == old(free) + IndicesOf(old(quarantine)[..k]) && quarantine == Rotated(old(quarantine), k)
    {
      ghost var q := quarantine;
      ghost var k := 0;
      while |quarantine| > 0
        invariant k <= ReadyPrefix(q, now) && quarantine == q[k..]
        invariant free == old(free) + IndicesOf(q[..k])
        invariant generation == old(generation)
        decreases |quarantine|
      {
        var entry := quarantine[0];
        quarantine := quarantine[1..];
        if Ready(entry, now) {
          free := free + [entry.index];
          assert q[..k + 1] == q[..k] + [entry];
          IndicesOfConcat(q[..k], [entry]);
          k := k + 1;
        } else {
          quarantine := quarantine + [entry];
          break;
        }
      }
    }

    /** (total, free, quarantined, in use). */
    method Stats() returns (total: nat, freeCount: nat, quarantined: nat, inUse: int)
      ensures total == count && freeCount == |free| && quarantined == |quarantine|
      ensures inUse + |Available(View())| == count
    {
      return count, |free|, |quarantine|, count - |free| - |quarantine|;
    }

    /** Copies `data` to the start of buffer `index`. */
    method Fill(index: nat, data: seq<byte>)
      requires |data| <= size && Fits(region[..], size, index)
      modifies region
      ensures View() == old(View()).(mem := Store(old(region[..]), size, index, data))
    {
      forall i | 0 <= i < |data| {
        region[index * size + i] := data[i];
      }
      assert forall i :: 0 <= i < |data| ==> region[index * size + i] == data[i];
      assert region[..] == Store(old(region[..]), size, index, data);
    }

    /** The bytes of buffer `index`, at most a whole buffer. */
    method Read(index: nat, len: nat) returns (bytes: seq<byte>)
      requires Fits(region[..], size, index)
      ensures bytes == Slice(region[..], size, index, len)
    {
      bytes := region[index * size..index * size + Min(len, size)];
    }
  }
}
