/**
 Where the provided buffers are: between the engine that publishes and recycles
 them, the kernel that hands them out, and completions nobody has drained yet.
 */
module ProvidedIds {
  import opened Bits
  import opened Indices
  import opened Buffers
  import opened UserData
  import opened Core
  import opened ProvidedRing
  import opened Uring

  /** The buffers a drained list gives back to the ring. */
  function Recycled(cs: seq<Cqe>): seq<nat> {
    if cs == [] then []
    else
      var c := cs[|cs| - 1];
      Recycled(cs[..|cs| - 1]) + if UsedProvided(c) then [BufferIndex(c).value] else []
  }

  lemma {:induction false} DrainRecycled(e: Engine, cs: seq<Cqe>)
    ensures Drain(e, cs).recycled == Recycled(cs)
  {
    if cs != [] {
      DrainRecycled(e, cs[..|cs| - 1]);
    }
  }

  /** A multishot receive that used a provided buffer. */
  predicate UsedProvided(c: Cqe) {
    OpOf(c.word).RecvMulti? && BufferIndex(c).Some?
  }

  /** How many of the first `n` completions used a provided buffer. */
  function UsedCount(cs: seq<Cqe>, n: nat): nat
    requires n <= |cs|
  {
    if n == 0 then 0 else UsedCount(cs, n - 1) + if UsedProvided(cs[n - 1]) then 1 else 0
  }

  lemma {:induction false} UsedPrefix(cs: seq<Cqe>, n: nat, m: nat)
    requires n <= m <= |cs|
    ensures UsedCount(cs[..m], n) == UsedCount(cs, n)
  {
    if n > 0 {
      UsedPrefix(cs, n - 1, m);
    }
  }

  lemma {:induction false} RecycledPosition(cs: seq<Cqe>, i: nat)
    requires i < |cs|
    ensures |Recycled(cs)| == UsedCount(cs, |cs|) && UsedCount(cs, i) <= |Recycled(cs)|
    ensures UsedProvided(cs[i]) ==> UsedCount(cs, i) < |Recycled(cs)| && Recycled(cs)[UsedCount(cs, i)] == BufferIndex(cs[i]).value
  {
    var n := |cs| - 1;
    UsedPrefix(cs, n, n);
    if n > 0 {
      var j := if i < n then i else 0;
      RecycledPosition(cs[..n], j);
      UsedPrefix(cs, j, n);
    }
  }

  /** A drain recycles one buffer for each completion that used a provided one, its own, and in their order. */
  lemma RecycledAt(e: Engine, cs: seq<Cqe>, i: nat)
    requires i < |cs|
    ensures var ids := Drain(e, cs).recycled;
            && |ids| == UsedCount(cs, |cs|) && UsedCount(cs, i) <= |ids|
            && (UsedProvided(cs[i]) ==> UsedCount(cs, i) < |ids| && ids[UsedCount(cs, i)] == BufferIndex(cs[i]).value)
  {
    DrainRecycled(e, cs);
    RecycledPosition(cs, i);
  }

  function Bids(es: seq<Entry>): (ids: seq<nat>)
    ensures |ids| == |es| && forall i :: 0 <= i < |es| ==> ids[i] == es[i].bid
  {
    seq(|es|, i requires 0 <= i < |es| => es[i].bid)
  }

  /** The ring as the kernel sees it, and the completions not yet drained. */
  datatype Provided = Provided(ring: RingView, undrained: seq<Cqe>)

  datatype RingStep =
    | Hand(fd: int, generation: nat, result: int, low: nat)
    | Post(c: Cqe)
    | DrainQueue

  /** The published entries the kernel has not handed out, oldest first. */
  function InRing(p: Provided): seq<Entry> {
    Window(p.ring.slots, p.ring.head, p.ring.total)
  }

  /**
   The kernel hands out the oldest entry, once, for a multishot receive (bit 0 of the
   flags set); other completions carry no buffer.
   */
  predicate RingStepAllowed(p: Provided, step: RingStep) {
    match step
    case Hand(fd, generation, _, low) => InRing(p) != [] && IsI32(fd) && generation < 0x1_0000 && low < 0x1_0000 && low % 2 == 1
    case Post(c) => BufferIndex(c).None?
    case DrainQueue => true
  }

  function Handed(p: Provided, step: RingStep): Cqe
    requires step.Hand? && InRing(p) != []
  {
    Cqe(Encode(step.fd, RecvMulti, step.generation), step.result, InRing(p)[0].bid * 0x1_0000 + step.low)
  }

  function RingNext(base: nat, size: nat, p: Provided, step: RingStep): Provided {
    match step
    case Hand(_, _, _, _) =>
      if InRing(p) == [] then p
      else Provided(p.ring.(head := p.ring.head + 1), p.undrained + [Handed(p, step)])
    case Post(c) => p.(undrained := p.undrained + [c])
    case DrainQueue =>
      var ids := Recycled(p.undrained);
      Provided(if ids == [] then p.ring else Appended(p.ring, Entries(base, size, ids)), [])
  }

  /** Every entry describes the buffer it names. */
  predicate Described(base: nat, size: nat, es: seq<Entry>) {
    forall i :: 0 <= i < |es| ==> es[i] == EntryOf(base, size, es[i].bid)
  }

  ghost predicate ShareOut(count: nat, a: seq<nat>, b: seq<nat>) {
    multiset(a) + multiset(b) == multiset(Range(count))
  }

  /** Ring and undrained completions share out `0..count`, and the ring's entries describe their buffers. */
  ghost predicate RingInv(base: nat, size: nat, count: nat, p: Provided) {
    && RingShape(p.ring)
    && count <= |p.ring.slots|
    && Described(base, size, InRing(p))
    && ShareOut(count, Bids(InRing(p)), Recycled(p.undrained))
  }

  lemma ShareOutMeaning(count: nat, a: seq<nat>, b: seq<nat>)
    requires ShareOut(count, a, b)
    ensures |a| + |b| == count
    ensures NoDup(a + b)
    ensures forall id :: id in a ==> id < count
  {
    assert multiset(a + b) == multiset(Range(count));
    assert |multiset(a + b)| == |a + b|;
    NoDupCount(a + b);
    forall v: nat ensures multiset(Range(count))[v] <= 1 {
      RangeCount(count, v);
    }
    forall id | id in a ensures id < count {
      assert id in multiset(a + b);
      RangeCount(count, id);
    }
  }

  lemma ShareOutMove(count: nat, x: nat, a: seq<nat>, b: seq<nat>)
    requires ShareOut(count, [x] + a, b)
    ensures ShareOut(count, a, b + [x])
  {
    assert multiset([x] + a) + multiset(b) == multiset(a) + multiset(b + [x]);
  }

  lemma ShareOutBack(count: nat, a: seq<nat>, b: seq<nat>)
    requires ShareOut(count, a, b)
    ensures ShareOut(count, a + b, [])
  {
    assert multiset(a + b) == multiset(a) + multiset(b);
  }

  lemma BidsConcat(a: seq<Entry>, b: seq<Entry>)
    ensures Bids(a + b) == Bids(a) + Bids(b)
  {
  }

  lemma BidsOfEntries(base: nat, size: nat, ids: seq<nat>)
    ensures Bids(Entries(base, size, ids)) == ids
    ensures Described(base, size, Entries(base, size, ids))
  {
  }

  lemma {:induction false} RecycledOne(cs: seq<Cqe>, c: Cqe)
    ensures Recycled(cs + [c])
            == Recycled(cs) + if BufferIndex(c).Some? && OpOf(c.word).RecvMulti? then [BufferIndex(c).value] else []
  {
    assert (cs + [c])[..|cs|] == cs;
  }

  /** The completion of a handed-out entry names that entry's buffer. */
  lemma HandedNames(p: Provided, step: RingStep)
    requires step.Hand? && RingStepAllowed(p, step) && InRing(p)[0].bid < 0x1_0000
    ensures Recycled(p.undrained + [Handed(p, step)]) == Recycled(p.undrained) + [InRing(p)[0].bid]
  {
    var c := Handed(p, step);
    RoundTrip(step.fd, RecvMulti, step.generation);
    BufferIndexOfFlags(c, InRing(p)[0].bid, step.low);
    RecycledOne(p.undrained, c);
  }

  lemma DescribedTail(base: nat, size: nat, e: Entry, rest: seq<Entry>)
    requires Described(base, size, [e] + rest)
    ensures Described(base, size, rest)
  {
    forall i | 0 <= i < |rest| ensures rest[i] == EntryOf(base, size, rest[i].bid) {
      assert rest[i] == ([e] + rest)[i + 1];
    }
  }

  lemma HandShares(count: nat, p: Provided, step: RingStep, rest: seq<Entry>)
    requires step.Hand? && RingStepAllowed(p, step) && count <= 0x8000
    requires InRing(p) == [InRing(p)[0]] + rest
    requires ShareOut(count, Bids(InRing(p)), Recycled(p.undrained))
    ensures ShareOut(count, Bids(rest), Recycled(p.undrained + [Handed(p, step)]))
  {
    var first := InRing(p)[0];
    ShareOutMeaning(count, Bids(InRing(p)), Recycled(p.undrained));
    assert Bids(InRing(p))[0] == first.bid && first.bid in Bids(InRing(p));
    HandedNames(p, step);
    BidsConcat([first], rest);
    assert Bids([first]) == [first.bid];
    ShareOutMove(count, first.bid, Bids(rest), Recycled(p.undrained));
  }

  lemma HandKeeps(base: nat, size: nat, count: nat, p: Provided, step: RingStep)
    requires RingInv(base, size, count, p) && count <= 0x8000 && step.Hand? && RingStepAllowed(p, step)
    ensures RingInv(base, size, count, RingNext(base, size, p, step))
  {
    var rest := Window(p.ring.slots, p.ring.head + 1, p.ring.total);
    HandShares(count, p, step, rest);
    DescribedTail(base, size, InRing(p)[0], rest);
  }

  lemma DrainKeeps(base: nat, size: nat, count: nat, p: Provided)
    requires RingInv(base, size, count, p)
    ensures RingInv(base, size, count, RingNext(base, size, p, DrainQueue))
  {
    var w, ids := InRing(p), Recycled(p.undrained);
    ShareOutMeaning(count, Bids(w), ids);
    ShareOutBack(count, Bids(w), ids);
    if ids == [] {
      assert Bids(w) + ids == Bids(w);
    } else {
      var es := Entries(base, size, ids);
      BidsOfEntries(base, size, ids);
      AppendedKeepsShape(p.ring, es);
      BidsConcat(w, es);
      assert InRing(RingNext(base, size, p, DrainQueue)) == w + es;
    }
  }

  lemma RingStepKeeps(base: nat, size: nat, count: nat, p: Provided, step: RingStep)
    requires RingInv(base, size, count, p) && count <= 0x8000 && RingStepAllowed(p, step)
    ensures RingInv(base, size, count, RingNext(base, size, p, step))
  {
    match step
    case Hand(_, _, _, _) => HandKeeps(base, size, count, p, step);
    case Post(c) =>
      RecycledOne(p.undrained, c);
      assert InRing(RingNext(base, size, p, step)) == InRing(p);
    case DrainQueue => DrainKeeps(base, size, count, p);
  }

  /** The ring object as `new` leaves it: all buffers published once. */
  function Populated(entries: nat, base: nat, size: nat, count: nat): RingView {
    Appended(RingView(seq(entries, i => Entry(0, 0, 0)), 0, 0, 0), Entries(base, size, Range(count)))
  }

  lemma PopulatedInv(entries: nat, base: nat, size: nat, count: nat)
    requires RingSize(entries) && count <= entries
    ensures RingInv(base, size, count, Provided(Populated(entries, base, size, count), []))
  {
    var v, es := RingView(seq(entries, i => Entry(0, 0, 0)), 0, 0, 0), Entries(base, size, Range(count));
    AppendedKeepsShape(v, es);
    BidsOfEntries(base, size, Range(count));
    assert Window(v.slots, 0, 0) == [];
    assert InRing(Provided(Appended(v, es), [])) == es;
  }

  ghost predicate RingRun(base: nat, size: nat, states: seq<Provided>, steps: seq<RingStep>) {
    |states| == |steps| + 1 && forall i :: 0 <= i < |steps| ==> RingLinked(base, size, states, steps, i)
  }

  ghost predicate RingLinked(base: nat, size: nat, states: seq<Provided>, steps: seq<RingStep>, i: nat)
    requires i < |steps| < |states|
  {
    RingStepAllowed(states[i], steps[i]) && states[i + 1] == RingNext(base, size, states[i], steps[i])
  }

  lemma RunKeepsInv(base: nat, size: nat, count: nat, states: seq<Provided>, steps: seq<RingStep>, i: nat)
    requires RingRun(base, size, states, steps) && i < |steps| && count <= 0x8000 && RingInv(base, size, count, states[i])
    ensures RingInv(base, size, count, states[i + 1])
  {
    assert RingLinked(base, size, states, steps, i);
    RingStepKeeps(base, size, count, states[i], steps[i]);
  }

  lemma {:induction false} InvAt(base: nat, size: nat, count: nat, states: seq<Provided>, steps: seq<RingStep>, n: nat)
    requires RingRun(base, size, states, steps) && n <= |steps| && count <= 0x8000 && RingInv(base, size, count, states[0])
    ensures RingInv(base, size, count, states[n])
  {
    if n > 0 {
      InvAt(base, size, count, states, steps, n - 1);
      RunKeepsInv(base, size, count, states, steps, n - 1);
    }
  }

  /**
   In every run from the initial population the buffers in the ring and those in
   undrained completions partition `0..count`: none is published twice at a time, and
   publishing what a drain recycles always finds room.
   */
  lemma ProvidedInEveryRun(entries: nat, base: nat, size: nat, count: nat, states: seq<Provided>, steps: seq<RingStep>)
    requires RingSize(entries) && count <= entries && count <= 0x8000
    requires RingRun(base, size, states, steps) && states[0] == Provided(Populated(entries, base, size, count), [])
    ensures var p := states[|steps|];
            && RingInv(base, size, count, p)
            && NoDup(Bids(InRing(p)) + Recycled(p.undrained))
            && p.ring.total - p.ring.head + |Recycled(p.undrained)| == count <= |p.ring.slots|
  {
    var p := states[|steps|];
    PopulatedInv(entries, base, size, count);
    InvAt(base, size, count, states, steps, |steps|);
    ShareOutMeaning(count, Bids(InRing(p)), Recycled(p.undrained));
  }

  // ---------------------------------------------------------------------------
  // Addresses
  // ---------------------------------------------------------------------------

  /** The entry covers exactly the addresses of the buffer it names, in a region that starts at `base`. */
  ghost predicate CoversItsBuffer(base: nat, size: nat, count: nat, e: Entry) {
    && e.bid < count && e.len == size && base <= e.addr && e.addr + e.len <= base + size * count
    && forall o: nat :: o < size * count ==> (e.addr <= base + o < e.addr + e.len <==> o / size == e.bid)
  }

  lemma EntryCovers(base: nat, size: nat, count: nat, e: Entry)
    requires e == EntryOf(base, size, e.bid) && e.bid < count && size < 0x1_0000_0000
    ensures CoversItsBuffer(base, size, count, e)
  {
    BuffersApart(size, e.bid, count);
    forall o: nat | o < size * count ensures e.addr <= base + o < e.addr + e.len <==> o / size == e.bid {
      BuffersTile(size, count, o, e.bid);
    }
  }

  /** Two entries for different buffers have no address in common. */
  lemma EntriesApart(base: nat, size: nat, count: nat, a: Entry, b: Entry)
    requires CoversItsBuffer(base, size, count, a) && CoversItsBuffer(base, size, count, b) && a.bid != b.bid
    ensures a.addr + a.len <= b.addr || b.addr + b.len <= a.addr
  {
    AddressOfBuffer(base, size, count, a);
    AddressOfBuffer(base, size, count, b);
    if a.bid < b.bid {
      BuffersApart(size, a.bid, b.bid);
    } else {
      BuffersApart(size, b.bid, a.bid);
    }
  }

  /** What is written at the entry's address is what reading the buffer it names returns. */
  lemma WrittenIsRead(base: nat, size: nat, count: nat, e: Entry, mem: seq<byte>, data: seq<byte>, len: nat)
    requires CoversItsBuffer(base, size, count, e) && |mem| == size * count && len <= |data| <= e.len
    ensures Fits(mem, size, e.bid)
    ensures var at := e.addr - base;
            Slice(mem[..at] + data + mem[at + |data|..], size, e.bid, len) == data[..len]
  {
    BufferFits(mem, size, count, e.bid);
    AddressOfBuffer(base, size, count, e);
    StoreSame(mem, size, e.bid, data, len);
  }

  /** An entry that covers a buffer starts where the buffer does. */
  lemma AddressOfBuffer(base: nat, size: nat, count: nat, e: Entry)
    requires CoversItsBuffer(base, size, count, e)
    ensures e.addr == base + e.bid * size
  {
    BuffersApart(size, e.bid, count);
    if size == 0 {
      assert size * count == 0 && e.bid * size == 0;
    } else {
      var first := e.bid * size;
      BuffersTile(size, count, first, e.bid);
      BuffersTile(size, count, e.addr - base, e.bid);
      assert e.addr <= base + first;
      assert e.addr <= base + (e.addr - base) < e.addr + e.len;
    }
  }

  /**
   In every run, for buffers of less than 4 GiB: each entry in the ring covers exactly the
   addresses of the buffer it names, and different entries have no address in common, so
   the kernel writes each message where the engine will read it.
   */
  lemma AddressedInEveryRun(entries: nat, base: nat, size: nat, count: nat, states: seq<Provided>, steps: seq<RingStep>)
    requires RingSize(entries) && count <= entries && count <= 0x8000 && size < 0x1_0000_0000
    requires RingRun(base, size, states, steps) && states[0] == Provided(Populated(entries, base, size, count), [])
    ensures var es := InRing(states[|steps|]);
            && (forall i :: 0 <= i < |es| ==> CoversItsBuffer(base, size, count, es[i]))
            && (forall i, j :: 0 <= i < j < |es| ==> es[i].addr + es[i].len <= es[j].addr || es[j].addr + es[j].len <= es[i].addr)
  {
    var p := states[|steps|];
    var es := InRing(p);
    ProvidedInEveryRun(entries, base, size, count, states, steps);
    ShareOutMeaning(count, Bids(es), Recycled(p.undrained));
    forall i | 0 <= i < |es| ensures CoversItsBuffer(base, size, count, es[i]) {
      assert Bids(es)[i] in Bids(es);
      EntryCovers(base, size, count, es[i]);
    }
    forall i, j | 0 <= i < j < |es| ensures es[i].addr + es[i].len <= es[j].addr || es[j].addr + es[j].len <= es[i].addr {
      var all := Bids(es) + Recycled(p.undrained);
      assert all[i] == es[i].bid && all[j] == es[j].bid;
      EntriesApart(base, size, count, es[i], es[j]);
    }
  }
}
