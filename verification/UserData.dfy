/** The 64-bit `user_data` word that carries a submission's identity to its completion. */
module UserData {
  import opened Bits
  import opened Indices

  datatype OpType =
    | Recv | Send | Accept | Connect | Close | Timeout | RecvMulti
    | SendZC | AcceptMulti | RecvMsg | SendMsg | ProvideBuffer | FixedFdTable | Unknown

  predicate IsI32(x: int) {
    -0x8000_0000 <= x < 0x8000_0000
  }

  /** The cast `i32 as u32`. */
  function AsU32(x: int): nat {
    x % 0x1_0000_0000
  }

  /** The cast of a word to `i32`: the low 32 bits in two's complement. */
  function AsI32(x: nat): int {
    var low := x % 0x1_0000_0000;
    if low < 0x8000_0000 then low else low - 0x1_0000_0000
  }

  function OpCode(op: OpType): nat {
    match op
    case Recv => 0
    case Send => 1
    case Accept => 2
    case Connect => 3
    case Close => 4
    case Timeout => 5
    case RecvMulti => 6
    case SendZC => 7
    case AcceptMulti => 8
    case RecvMsg => 9
    case SendMsg => 10
    case ProvideBuffer => 11
    case FixedFdTable => 12
    case Unknown => 255
  }

  function FromU8(v: nat): OpType {
    if v == 0 then Recv
    else if v == 1 then Send
    else if v == 2 then Accept
    else if v == 3 then Connect
    else if v == 4 then Close
    else if v == 5 then Timeout
    else if v == 6 then RecvMulti
    else if v == 7 then SendZC
    else if v == 8 then AcceptMulti
    else if v == 9 then RecvMsg
    else if v == 10 then SendMsg
    else if v == 11 then ProvideBuffer
    else if v == 12 then FixedFdTable
    else Unknown
  }

  function Encode(fd: int, op: OpType, generation: nat): nat {
    Or(Or(AsU32(fd), OpCode(op) * 0x1_0000_0000), generation * 0x1_0000_0000_0000)
  }

  function FdOf(word: nat): int {
    AsI32(And(word, 0xFFFF_FFFF))
  }

  function OpOf(word: nat): OpType {
    FromU8(And(word / 0x1_0000_0000, 0xFF))
  }

  function GenerationOf(word: nat): nat {
    And(word / 0x1_0000_0000_0000, 0xFFFF)
  }

  /** Bits 40..47 of a word. */
  function ReservedOf(word: nat): nat {
    word / 0x100_0000_0000 % 0x100
  }

  /** The operation codes that name themselves, in order. */
  const OPERATIONS: seq<OpType> :=
    [Recv, Send, Accept, Connect, Close, Timeout, RecvMulti, SendZC, AcceptMulti, RecvMsg, SendMsg, ProvideBuffer, FixedFdTable]

  /** Codes are positions in that list; every other byte reads as unknown. */
  lemma CodesAre(code: nat)
    ensures FromU8(code) == if code < |OPERATIONS| then OPERATIONS[code] else Unknown
    ensures code < |OPERATIONS| ==> OpCode(OPERATIONS[code]) == code
    ensures OpCode(Unknown) == 0xFF
  {
  }

  /** The three fields do not overlap, so the word is their weighted sum. */
  lemma EncodeSum(fd: int, op: OpType, generation: nat)
    ensures Encode(fd, op, generation) == AsU32(fd) + OpCode(op) * 0x1_0000_0000 + generation * 0x1_0000_0000_0000
  {
    Pow2Values();
    OrDisjoint(AsU32(fd), OpCode(op), 32);
    OrDisjoint(AsU32(fd) + OpCode(op) * 0x1_0000_0000, generation, 48);
  }

  /** The three accessors as quotients and remainders. */
  lemma Decode(word: nat)
    ensures FdOf(word) == AsI32(word % 0x1_0000_0000)
    ensures OpOf(word) == FromU8(word / 0x1_0000_0000 % 0x100)
    ensures GenerationOf(word) == word / 0x1_0000_0000_0000 % 0x1_0000
  {
    Pow2Values();
    AndMask(word, 32);
    AndMask(word / 0x1_0000_0000, 8);
    AndMask(word / 0x1_0000_0000_0000, 16);
  }

  /** Base-2^32, 2^8, 2^8, 2^16 digits of a word. */
  lemma Digits(word: nat, f: nat, c: nat, r: nat, g: nat)
    requires word == f + c * 0x1_0000_0000 + r * 0x100_0000_0000 + g * 0x1_0000_0000_0000
    requires f < 0x1_0000_0000 && c < 0x100 && r < 0x100
    ensures word % 0x1_0000_0000 == f && word / 0x1_0000_0000 % 0x100 == c
    ensures ReservedOf(word) == r && word / 0x1_0000_0000_0000 == g
    ensures g < 0x1_0000 ==> word < 0x1_0000_0000_0000_0000 && g % 0x1_0000 == g
  {
    assert word / 0x1_0000_0000 == c + r * 0x100 + g * 0x1_0000;
    assert word / 0x100_0000_0000 == r + g * 0x100;
  }

  lemma DigitsExist(word: nat)
    ensures word == word % 0x1_0000_0000 + word / 0x1_0000_0000 % 0x100 * 0x1_0000_0000
                    + ReservedOf(word) * 0x100_0000_0000 + word / 0x1_0000_0000_0000 * 0x1_0000_0000_0000
  {
    var h := word / 0x1_0000_0000;
    assert word == word % 0x1_0000_0000 + h * 0x1_0000_0000;
    assert h == h % 0x100 + h / 0x100 * 0x100;
    var k := h / 0x100;
    assert k == k % 0x100 + k / 0x100 * 0x100;
    assert k == word / 0x100_0000_0000;
    assert k / 0x100 == word / 0x1_0000_0000_0000;
  }

  lemma SignedRoundTrip(fd: int)
    requires IsI32(fd)
    ensures AsI32(AsU32(fd)) == fd
  {
  }

  lemma UnsignedRoundTrip(x: nat)
    requires x < 0x1_0000_0000
    ensures AsU32(AsI32(x)) == x
  {
  }

  lemma DecodeSum(word: nat, f: nat, c: nat, g: nat)
    requires word == f + c * 0x1_0000_0000 + g * 0x1_0000_0000_0000
    requires f < 0x1_0000_0000 && c < 0x100 && g < 0x1_0000
    ensures FdOf(word) == AsI32(f) && OpOf(word) == FromU8(c) && GenerationOf(word) == g
    ensures ReservedOf(word) == 0 && word < 0x1_0000_0000_0000_0000
  {
    Decode(word);
    Digits(word, f, c, 0, g);
  }

  /** Decoding undoes encoding for every fd (negative ones too), operation and 16-bit generation. */
  lemma RoundTrip(fd: int, op: OpType, generation: nat)
    requires IsI32(fd) && generation < 0x1_0000
    ensures FdOf(Encode(fd, op, generation)) == fd
    ensures OpOf(Encode(fd, op, generation)) == op
    ensures GenerationOf(Encode(fd, op, generation)) == generation
    ensures ReservedOf(Encode(fd, op, generation)) == 0
    ensures Encode(fd, op, generation) < 0x1_0000_0000_0000_0000
  {
    EncodeSum(fd, op, generation);
    DecodeSum(Encode(fd, op, generation), AsU32(fd), OpCode(op), generation);
    SignedRoundTrip(fd);
    CodeRoundTrip(op);
  }

  lemma EncodeInjective(fd: int, op: OpType, g: nat, fd': int, op': OpType, g': nat)
    requires IsI32(fd) && IsI32(fd') && g < 0x1_0000 && g' < 0x1_0000
    ensures Encode(fd, op, g) == Encode(fd', op', g') <==> fd == fd' && op == op' && g == g'
  {
    RoundTrip(fd, op, g);
    RoundTrip(fd', op', g');
  }

  lemma CodeRoundTrip(op: OpType)
    ensures FromU8(OpCode(op)) == op
  {
  }

  lemma TopDigit(word: nat)
    requires word < 0x1_0000_0000_0000_0000
    ensures word / 0x1_0000_0000_0000 % 0x1_0000 == word / 0x1_0000_0000_0000
  {
  }

  lemma KnownCode(code: nat)
    requires code < 0x100
    ensures OpCode(FromU8(code)) < 0x100
    ensures OpCode(FromU8(code)) == code <==> code <= 12 || code == 255
  {
  }

  lemma Reencode(word: nat)
    requires word < 0x1_0000_0000_0000_0000
    ensures Encode(FdOf(word), OpOf(word), GenerationOf(word))
            == word % 0x1_0000_0000 + OpCode(FromU8(word / 0x1_0000_0000 % 0x100)) * 0x1_0000_0000 + word / 0x1_0000_0000_0000 * 0x1_0000_0000_0000
  {
    Decode(word);
    EncodeSum(FdOf(word), OpOf(word), GenerationOf(word));
    UnsignedRoundTrip(word % 0x1_0000_0000);
    TopDigit(word);
  }

  /** Re-encoding the decoded fields restores a word exactly when its operation code is known and bits 40..47 are zero. */
  lemma ReencodeIff(word: nat)
    requires word < 0x1_0000_0000_0000_0000
    ensures Encode(FdOf(word), OpOf(word), GenerationOf(word)) == word
      <==> (word / 0x1_0000_0000 % 0x100 <= 12 || word / 0x1_0000_0000 % 0x100 == 255) && ReservedOf(word) == 0
  {
    Reencode(word);
    DigitsExist(word);
    var code := word / 0x1_0000_0000 % 0x100;
    KnownCode(code);
    var again := Encode(FdOf(word), OpOf(word), GenerationOf(word));
    Digits(again, word % 0x1_0000_0000, OpCode(FromU8(code)), 0, word / 0x1_0000_0000_0000);
  }

  // ---------------------------------------------------------------------------
  // Completions
  // ---------------------------------------------------------------------------

  /** A completion as drained from the queue; `flags` is an unsigned 32-bit word. */
  datatype Cqe = Cqe(word: nat, result: int, flags: nat)

  /** The provided buffer the kernel selected, if any: bit 0 says so, the upper half is its id. */
  function BufferIndex(c: Cqe): Option<nat> {
    if And(c.flags, 1) != 0 then Some(c.flags / 0x1_0000 % 0x1_0000) else None
  }

  lemma BufferIndexOfFlags(c: Cqe, bid: nat, low: nat)
    requires bid < 0x1_0000 && low < 0x1_0000 && c.flags == bid * 0x1_0000 + low
    ensures BufferIndex(c) == if low % 2 == 1 then Some(bid) else None
  {
    Pow2Values();
    AndMask(c.flags, 1);
  }
}
