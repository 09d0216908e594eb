/** The ring of provided buffers shared with the kernel, as a queue in a power-of-two array with a wrapping 16-bit tail. */
module ProvidedRing {
  import opened Bits
  import opened Indices

  datatype Entry = Entry(addr: nat, len: nat, bid: nat)

  /** The slot of the `i`-th entry published at a tail, in 16-bit arithmetic and with the ring's mask. */
  function SlotOf(tail: nat, i: nat, mask: nat): nat {
    And((tail + i) % 0x1_0000, mask)
  }

  predicate RingSize(n: nat) {
    IsPowerOfTwo(n) && n < 0x1_0000
  }

  lemma WrapTwice(position: nat, i: nat)
    ensures (position % 0x1_0000 + i) % 0x1_0000 == (position + i) % 0x1_0000
  {
  }

  lemma MaskOfWrapped(x: nat, entries: nat)
    requires RingSize(entries)
    ensures And(x % 0x1_0000, entries - 1) == x % entries
  {
    var k := LogOf(entries);
    Pow2Values();
    LogBound(k, 16);
    var m := Pow2Divides(k, 16);
    AndMask(x % 0x1_0000, k);
    ModOfMultiple(x, entries, m);
  }

  /** The 16-bit tail picks the slot of the unbounded position, however often it has wrapped. */
  lemma SlotOfPosition(position: nat, i: nat, entries: nat)
    requires RingSize(entries)
    ensures SlotOf(position % 0x1_0000, i, entries - 1) == (position + i) % entries
    ensures SlotOf(position, i, entries - 1) == (position + i) % entries
  {
    WrapTwice(position, i);
    MaskOfWrapped(position + i, entries);
  }

  /** The slots after entries are written one after the other from the tail on. */
  function Publish(slots: seq<Entry>, tail: nat, es: seq<Entry>): (slots': seq<Entry>)
    ensures |slots'| == |slots|
  {
    if es == [] || |slots| == 0 then slots
    else
      var n := |es| - 1;
      Put(Publish(slots, tail, es[..n]), SlotOf(tail, n, |slots| - 1), es[n])
  }

  /** What the kernel finds between its head and the published tail, both as unbounded positions. */
  function Window(slots: seq<Entry>, head: nat, total: nat): (w: seq<Entry>)
    ensures |w| == if |slots| == 0 || head > total then 0 else total - head
    decreases total - head
  {
    if |slots| == 0 || head >= total then []
    else [slots[head % |slots|]] + Window(slots, head + 1, total)
  }

  lemma {:induction false} WindowAt(slots: seq<Entry>, head: nat, total: nat, i: nat)
    requires |slots| > 0 && head + i < total
    ensures Window(slots, head, total)[i] == slots[(head + i) % |slots|]
    decreases i
  {
    if i > 0 {
      WindowAt(slots, head + 1, total, i - 1);
      assert head + i == head + 1 + (i - 1);
    }
  }

  lemma {:induction false} AppendOne(slots: seq<Entry>, head: nat, total: nat, index: nat, e: Entry)
    requires head <= total && total - head < |slots| && index < |slots| && index == total % |slots|
    ensures Window(slots[index := e], head, total + 1) == Window(slots, head, total) + [e]
    decreases total - head
  {
    if head < total {
      ModDistinct(head, total, |slots|);
      AppendOne(slots, head + 1, total, index, e);
    }
  }

  /** The last of several entries goes to the slot of its unbounded position. */
  lemma PublishLast(slots: seq<Entry>, total: nat, es: seq<Entry>) returns (index: nat)
    requires RingSize(|slots|) && es != []
    ensures index < |slots| && index == (total + |es| - 1) % |slots|
    ensures Publish(slots, total % 0x1_0000, es) == Publish(slots, total % 0x1_0000, es[..|es| - 1])[index := es[|es| - 1]]
  {
    var n := |es| - 1;
    index := SlotOf(total % 0x1_0000, n, |slots| - 1);
    SlotOfPosition(total, n, |slots|);
    ModBound(total + n, |slots|);
  }

  lemma ModBound(x: nat, d: nat)
    requires d > 0
    ensures 0 <= x % d < d
  {
  }

  /** While there is room, publishing appends to the queue and overwrites nothing unconsumed. */
  lemma {:induction false} PublishAppends(slots: seq<Entry>, head: nat, total: nat, es: seq<Entry>)
    requires RingSize(|slots|) && head <= total && total - head + |es| <= |slots|
    ensures Window(Publish(slots, total % 0x1_0000, es), head, total + |es|) == Window(slots, head, total) + es
  {
    if es != [] {
      var n := |es| - 1;
      var before := Publish(slots, total % 0x1_0000, es[..n]);
      PublishAppends(slots, head, total, es[..n]);
      var index := PublishLast(slots, total, es);
      AppendOne(before, head, total + n, index, es[n]);
      assert Window(slots, head, total) + es[..n] + [es[n]] == Window(slots, head, total) + es;
    }
  }

  /** Positions a whole ring apart share a slot. */
  lemma WindowRepeats(slots: seq<Entry>, head: nat, total: nat)
    requires 0 < |slots| < total - head
    ensures Window(slots, head, total)[0] == Window(slots, head, total)[|slots|]
  {
    var n := |slots|;
    DivModUnique(head + n, n, head / n + 1, head % n);
    WindowAt(slots, head, total, 0);
    WindowAt(slots, head, total, n);
  }

  /** With distinct entries, publishing is an append to the queue exactly when there is room. */
  lemma PublishAppendsIff(slots: seq<Entry>, head: nat, total: nat, es: seq<Entry>)
    requires RingSize(|slots|) && head <= total
    requires NoDup(Window(slots, head, total) + es)
    ensures Window(Publish(slots, total % 0x1_0000, es), head, total + |es|) == Window(slots, head, total) + es
      <==> total - head + |es| <= |slots|
  {
    if total - head + |es| <= |slots| {
      PublishAppends(slots, head, total, es);
    } else {
      WindowRepeats(Publish(slots, total % 0x1_0000, es), head, total + |es|);
      var appended := Window(slots, head, total) + es;
      assert appended[0] != appended[|slots|];
    }
  }

  /** A 16-bit cast of the next power of two is a legal ring size exactly up to 32768 buffers. */
  lemma RingSizeIff(count: nat)
    ensures RingSize(NextPowerOfTwo(count) % 0x1_0000) <==> count <= 0x8000
    ensures count <= 0x8000 ==> count <= NextPowerOfTwo(count) % 0x1_0000
  {
    NextPowerOfTwoMeaning(count, 1);
    var q := NextPowerOfTwo(count);
    var k := LogOf(q);
    Pow2Values();
    LogBound(k, 15);
    LogBound(16, k);
    if k >= 16 {
      LargePower(k);
      assert q % 0x1_0000 == 0;
    } else {
      assert q <= 0x8000 && q % 0x1_0000 == q;
    }
  }

  lemma LargePower(k: nat)
    requires k >= 16
    ensures Pow2(k) % 0x1_0000 == 0
  {
    var m := Pow2Divides(16, k);
    Pow2Values();
  }

  function Given(count: nat, getBuffer: nat -> Entry): (es: seq<Entry>)
    ensures |es| == count
  {
    seq(count, i requires 0 <= i < count => getBuffer(i))
  }

  /** The ring's contents and counters; `head` and `total` count what was consumed and published since creation. */
  datatype RingView = RingView(slots: seq<Entry>, tail: nat, head: nat, total: nat)

  /** Holds even after the ring has been overfilled. */
  predicate RingShape(v: RingView) {
    RingSize(|v.slots|) && v.tail == v.total % 0x1_0000 && v.head <= v.total
  }

  function Appended(v: RingView, es: seq<Entry>): RingView {
    RingView(Publish(v.slots, v.tail, es), (v.tail + |es|) % 0x1_0000, v.head, v.total + |es|)
  }

  lemma AppendedKeepsShape(v: RingView, es: seq<Entry>)
    requires RingShape(v)
    ensures RingShape(Appended(v, es))
    ensures v.total - v.head + |es| <= |v.slots| ==>
              var v' := Appended(v, es);
              Window(v'.slots, v'.head, v'.total) == Window(v.slots, v.head, v.total) + es
  {
    WrapTwice(v.total, |es|);
    if v.total - v.head + |es| <= |v.slots| {
      PublishAppends(v.slots, v.head, v.total, es);
    }
  }

  lemma PublishGiven(slots: seq<Entry>, tail: nat, count: nat, getBuffer: nat -> Entry)
    requires RingSize(|slots|)
    ensures SlotOf(tail, count, |slots| - 1) < |slots|
    ensures Publish(slots, tail, Given(count + 1, getBuffer))
            == Publish(slots, tail, Given(count, getBuffer))[SlotOf(tail, count, |slots| - 1) := getBuffer(count)]
  {
    SlotOfPosition(tail, count, |slots|);
    assert Given(count + 1, getBuffer)[..count] == Given(count, getBuffer);
  }

  /** The ring object. */
  class PBufRing {
    const slots: array<Entry>
    const mask: nat
    const bgid: nat
    var tail: nat
    ghost var head: nat
    ghost var total: nat

    ghost function View(): RingView
      reads this, slots
    {
      RingView(slots[..], tail, head, total)
    }

    ghost predicate Shape()
      reads this, slots
    {
      RingShape(View()) && mask == slots.Length - 1
    }

    ghost predicate HasRoom(count: nat)
      reads this
    {
      total - head + count <= slots.Length
    }

    ghost function Contents(): seq<Entry>
      requires Shape()
      reads this, slots
    {
      Window(slots[..], head, total)
    }

    constructor (entries: nat, bgid: nat)
      requires RingSize(entries)
      ensures View() == RingView(seq(entries, i => Entry(0, 0, 0)), 0, 0, 0)
      ensures Shape() && Contents() == [] && this.bgid == bgid && fresh(slots)
    {
      slots := new Entry[entries](_ => Entry(0, 0, 0));
      mask := entries - 1;
      this.bgid := bgid;
      tail, head, total := 0, 0, 0;
      new;
      assert slots[..] == seq(entries, i => Entry(0, 0, 0));
    }

    /** Refuses sizes that are not a power of two; `allocOk` is the outcome of the allocation. */
    static method Create(entries: nat, bgid: nat, allocOk: bool) returns (ring: PBufRing?)
      requires entries < 0x1_0000
      ensures ring != null <==> IsPowerOfTwo(entries) && allocOk
      ensures ring != null ==> fresh(ring) && fresh(ring.slots) && ring.Shape() && ring.Contents() == []
      ensures ring != null ==> ring.View() == RingView(seq(entries, i => Entry(0, 0, 0)), 0, 0, 0) && ring.bgid == bgid
    {
      if !IsPowerOfTwo(entries) || !allocOk {
        return null;
      }
      ring := new PBufRing(entries, bgid);
    }

    /** Always writes what `Publish` says; while there is room, that is an append to the queue. */
    method AddBuffers(count: nat, getBuffer: nat -> Entry)
      requires Shape() && count < 0x1_0000
      modifies this`tail, this`total, slots
      ensures Shape() && View() == Appended(old(View()), Given(count, getBuffer))
      ensures old(HasRoom(count)) ==> Contents() == old(Contents()) + Given(count, getBuffer)
    {
      AppendedKeepsShape(View(), Given(count, getBuffer));
      WriteSlots(count, getBuffer);
      tail := (tail + count) % 0x1_0000;
      total := total + count;
    }

    method WriteSlots(count: nat, getBuffer: nat -> Entry)
      requires Shape()
      modifies slots
      ensures slots[..] == Publish(old(slots[..]), tail, Given(count, getBuffer))
    {
      ghost var was := slots[..];
      var i := 0;
      while i < count
        invariant i <= count
        invariant slots[..] == Publish(was, tail, Given(i, getBuffer))
      {
        PublishGiven(was, tail, i, getBuffer);
        var index := SlotOf(tail, i, mask);
        slots[index] := getBuffer(i);
        i := i + 1;
      }
    }

    /** The kernel takes the oldest entry. */
    ghost method KernelTakes() returns (e: Entry)
      requires Shape() && Contents() != []
      modifies this`head
      ensures Shape() && old(Contents()) == [e] + Contents()
    {
      e := slots[head % slots.Length];
      head := head + 1;
    }
  }
}
