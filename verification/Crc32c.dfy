/** CRC32C (RFC 3720 section 12.1) as the source computes it, one table lookup per byte, against the bit-at-a-time
    division by the reflected Castagnoli polynomial (src/hash.cpp:39-61, 252-263). */
module Crc32c {
  import opened Prelude
  import opened Words

  /** The Castagnoli polynomial with its bits reversed. */
  const POLYNOMIAL: Word := Bits(0x82F63B78, 32)

  lemma {:induction false} TopBitOf(v: nat, n: nat)
    requires n > 0 && v < Pow2(n)
    ensures Bits(v, n)[n - 1] <==> v >= Pow2(n - 1)
  {
    if n > 1 { TopBitOf(v / 2, n - 1); }
  }

  lemma PolynomialTopBit()
    ensures POLYNOMIAL[31]
  {
    hide Bits;
    Pow2Of32();
    assert Pow2(32) == 2 * Pow2(31);
    TopBitOf(0x82F63B78, 32);
  }

  /** The low bits of a word, the rest zero. */
  function Widen(low: seq<bool>): (w: Word)
    requires |low| <= 32
    ensures forall i :: 0 <= i < 32 ==> w[i] == (i < |low| && low[i])
  {
    low + Falses(32 - |low|)
  }

  // ---- Division one bit at a time ----

  /** One step of the reflected division. */
  function Step(w: Word): Word {
    if w[0] then Xor(ShiftRight(w, 1), POLYNOMIAL) else ShiftRight(w, 1)
  }

  function Steps(w: Word, n: nat): Word
    decreases n
  {
    if n == 0 then w else Steps(Step(w), n - 1)
  }

  /** A message bit enters at the low end and the register takes one step. */
  function FeedBit(w: Word, bit: bool): Word {
    Step(w[0 := w[0] != bit])
  }

  function FeedBits(w: Word, bits: seq<bool>): Word
    decreases |bits|
  {
    if bits == [] then w else FeedBits(FeedBit(w, bits[0]), bits[1..])
  }

  function MessageBits(data: Bytes): (bits: seq<bool>)
    ensures |bits| == 8 * |data|
  {
    if data == [] then [] else Bits(data[0], 8) + MessageBits(data[1..])
  }

  // ---- The table-driven form ----

  function TableEntry(index: byte): Word {
    Steps(Widen(Bits(index, 8)), 8)
  }

  function TableIndex(crc: Word, b: byte): (i: byte)
    ensures Bits(i, 8) == Xor(crc[..8], Bits(b, 8))
  {
    var low := Xor(crc[..8], Bits(b, 8));
    BitsOfValue(low);
    assert Pow2(8) == 256;
    Value(low)
  }

  function ByteStep(crc: Word, b: byte): Word {
    Xor(TableEntry(TableIndex(crc, b)), ShiftRight(crc, 8))
  }

  function Update(crc: Word, data: Bytes): Word
    decreases |data|
  {
    if data == [] then crc else Update(ByteStep(crc, data[0]), data[1..])
  }

  // ---- The two agree ----

  lemma StepLinear(a: Word, b: Word)
    ensures Step(Xor(a, b)) == Xor(Step(a), Step(b))
  {
    var l, r := Step(Xor(a, b)), Xor(Step(a), Step(b));
    forall i | 0 <= i < 32 ensures l[i] == r[i] {}
  }

  lemma {:induction false} StepsLinear(a: Word, b: Word, n: nat)
    ensures Steps(Xor(a, b), n) == Xor(Steps(a, n), Steps(b, n))
    decreases n
  {
    hide Step;
    if n > 0 {
      StepLinear(a, b);
      StepsLinear(Step(a), Step(b), n - 1);
    }
  }

  /** Steps on a word whose low bits are zero only shift it. */
  lemma {:induction false} StepsShift(w: Word, n: nat)
    requires n <= 32 && forall i :: 0 <= i < n ==> !w[i]
    ensures Steps(w, n) == ShiftRight(w, n)
    decreases n
  {
    if n > 0 {
      StepsShift(Step(w), n - 1);
    }
  }

  /** Feeding bits one at a time is the same as adding them all to the low end first. */
  lemma {:induction false} FeedIsSteps(w: Word, bits: seq<bool>)
    requires |bits| <= 32
    ensures FeedBits(w, bits) == Steps(Xor(w, Widen(bits)), |bits|)
    decreases |bits|
  {
    hide Step;
    if bits == [] {
      assert Xor(w, Widen(bits)) == w;
    } else {
      FeedIsSteps(FeedBit(w, bits[0]), bits[1..]);
      FirstBit(w, bits);
    }
  }

  lemma FirstBit(w: Word, bits: seq<bool>)
    requires 0 < |bits| <= 32
    ensures Step(Xor(w, Widen(bits))) == Xor(FeedBit(w, bits[0]), Widen(bits[1..]))
  {
    var first, rest := w[0 := w[0] != bits[0]], Widen([false] + bits[1..]);
    assert Xor(w, Widen(bits)) == Xor(first, rest);
    StepLinear(first, rest);
    assert Step(rest) == Widen(bits[1..]);
  }

  /** One table lookup does the work of eight single-bit steps, from every register state. */
  lemma ByteStepIsEightBits(crc: Word, b: byte)
    ensures ByteStep(crc, b) == FeedBits(crc, Bits(b, 8))
  {
    hide Step, Steps, Bits;
    FeedIsSteps(crc, Bits(b, 8));
    var mixed := Xor(crc, Widen(Bits(b, 8)));
    var low, top := Widen(mixed[..8]), Falses(8) + mixed[8..];
    assert mixed == Xor(low, top);
    StepsLinear(low, top, 8);
    StepsShift(top, 8);
    assert ShiftRight(top, 8) == ShiftRight(crc, 8);
    assert mixed[..8] == Xor(crc[..8], Bits(b, 8)) == Bits(TableIndex(crc, b), 8);
  }

  lemma {:induction false} FeedConcat(w: Word, a: seq<bool>, b: seq<bool>)
    ensures FeedBits(w, a + b) == FeedBits(FeedBits(w, a), b)
    decreases |a|
  {
    if a == [] {
      assert a + b == b;
    } else {
      assert (a + b)[0] == a[0] && (a + b)[1..] == a[1..] + b;
      FeedConcat(FeedBit(w, a[0]), a[1..], b);
    }
  }

  /** The table-driven loop is the bit-at-a-time division, for every state and every input. */
  lemma {:induction false} UpdateIsDivision(crc: Word, data: Bytes)
    ensures Update(crc, data) == FeedBits(crc, MessageBits(data))
    decreases |data|
  {
    if data != [] {
      ByteStepIsEightBits(crc, data[0]);
      UpdateIsDivision(ByteStep(crc, data[0]), data[1..]);
      FeedConcat(crc, Bits(data[0], 8), MessageBits(data[1..]));
    }
  }

  /** Feeding a message in two pieces changes nothing. */
  lemma {:induction false} UpdateConcat(crc: Word, a: Bytes, b: Bytes)
    ensures Update(crc, a + b) == Update(Update(crc, a), b)
    decreases |a|
  {
    if a == [] {
      assert a + b == b;
    } else {
      assert (a + b)[0] == a[0] && (a + b)[1..] == a[1..] + b;
      UpdateConcat(ByteStep(crc, a[0]), a[1..], b);
    }
  }

  // ---- Error detection ----

  /** The polynomial's top bit makes every step reversible. */
  lemma StepInjective(a: Word, b: Word)
    requires Step(a) == Step(b)
    ensures a == b
  {
    hide Bits;
    PolynomialTopBit();
    assert Step(a)[31] == a[0] && Step(b)[31] == b[0];
    forall i | 0 < i < 32 ensures a[i] == b[i] {
      assert ShiftRight(a, 1)[i - 1] == a[i] && ShiftRight(b, 1)[i - 1] == b[i];
      assert Step(a)[i - 1] == Step(b)[i - 1];
    }
  }

  lemma {:induction false} StepsInjective(a: Word, b: Word, n: nat)
    requires Steps(a, n) == Steps(b, n)
    ensures a == b
    decreases n
  {
    if n > 0 {
      StepsInjective(Step(a), Step(b), n - 1);
      StepInjective(a, b);
    }
  }

  lemma FeedBitInjective(a: Word, b: Word, bit: bool)
    requires FeedBit(a, bit) == FeedBit(b, bit)
    ensures a == b
  {
    StepInjective(a[0 := a[0] != bit], b[0 := b[0] != bit]);
    assert a[0 := a[0] != bit][0] == b[0 := b[0] != bit][0];
    forall i | 0 < i < 32 ensures a[i] == b[i] {
      assert a[0 := a[0] != bit][i] == b[0 := b[0] != bit][i];
    }
  }

  /** From different states, the same input leads to different states. */
  lemma {:induction false} FeedStateInjective(a: Word, b: Word, bits: seq<bool>)
    requires FeedBits(a, bits) == FeedBits(b, bits)
    ensures a == b
    decreases |bits|
  {
    if bits != [] {
      FeedStateInjective(FeedBit(a, bits[0]), FeedBit(b, bits[0]), bits[1..]);
      FeedBitInjective(a, b, bits[0]);
    }
  }

  /** From one state, different inputs of at most 32 bits lead to different states. */
  lemma FeedBurstInjective(w: Word, x: seq<bool>, y: seq<bool>)
    requires |x| == |y| <= 32 && FeedBits(w, x) == FeedBits(w, y)
    ensures x == y
  {
    FeedIsSteps(w, x);
    FeedIsSteps(w, y);
    StepsInjective(Xor(w, Widen(x)), Xor(w, Widen(y)), |x|);
    forall i | 0 <= i < |x| ensures x[i] == y[i] {
      assert Xor(w, Widen(x))[i] == Xor(w, Widen(y))[i];
    }
  }

  lemma {:induction false} MessageBitsInjective(x: Bytes, y: Bytes)
    requires |x| == |y| && MessageBits(x) == MessageBits(y)
    ensures x == y
    decreases |x|
  {
    if x != [] {
      assert MessageBits(x)[..8] == Bits(x[0], 8) && MessageBits(y)[..8] == Bits(y[0], 8);
      assert Pow2(8) == 256;
      ValueOfBits(x[0], 8);
      ValueOfBits(y[0], 8);
      assert MessageBits(x)[8..] == MessageBits(x[1..]) && MessageBits(y)[8..] == MessageBits(y[1..]);
      MessageBitsInjective(x[1..], y[1..]);
      assert x == [x[0]] + x[1..] && y == [y[0]] + y[1..];
    }
  }

  function Trues(n: nat): (t: seq<bool>)
    ensures |t| == n && forall i :: 0 <= i < n ==> t[i]
  {
    seq(n, _ => true)
  }

  const ONES: Word := Trues(32)

  function Register(w: Word): (crc: u32) {
    Pow2Of32();
    Value(w)
  }

  /** `crc32c`: the register starts at ones and is complemented at the end. */
  function Checksum(data: Bytes): u32 {
    Register(Xor(Update(ONES, data), ONES))
  }

  /** What the streaming class reports: the register as it stands, not complemented. */
  function RunningChecksum(data: Bytes): u32 {
    Register(Update(ONES, data))
  }

  lemma {:induction false} ValueOfComplement(w: seq<bool>)
    ensures Value(w) + Value(Xor(w, Trues(|w|))) == Pow2(|w|) - 1
  {
    if w != [] {
      ValueOfComplement(w[1..]);
      assert Xor(w, Trues(|w|))[1..] == Xor(w[1..], Trues(|w[1..]|));
    }
  }

  /** The one-shot function and the streaming class never agree on any input: they are each other's complement. */
  lemma StreamingIsComplement(data: Bytes)
    ensures Checksum(data) + RunningChecksum(data) == U32_LIMIT - 1
    ensures Checksum(data) != RunningChecksum(data)
  {
    Pow2Of32();
    ValueOfComplement(Update(ONES, data));
  }

  /** Any change confined to four adjacent bytes changes both checksums, wherever it lies. */
  lemma BurstDetected(before: Bytes, x: Bytes, y: Bytes, after: Bytes)
    requires |x| == |y| <= 4 && x != y
    ensures Checksum(before + x + after) != Checksum(before + y + after)
    ensures RunningChecksum(before + x + after) != RunningChecksum(before + y + after)
  {
    StreamingIsComplement(before + x + after);
    StreamingIsComplement(before + y + after);
    if RunningChecksum(before + x + after) == RunningChecksum(before + y + after) {
      BitsOfValue(Update(ONES, before + x + after));
      BitsOfValue(Update(ONES, before + y + after));
      UpdateConcat(ONES, before + x, after); UpdateConcat(ONES, before, x);
      UpdateConcat(ONES, before + y, after); UpdateConcat(ONES, before, y);
      var w := Update(ONES, before);
      UpdateIsDivision(Update(w, x), after); UpdateIsDivision(Update(w, y), after);
      FeedStateInjective(Update(w, x), Update(w, y), MessageBits(after));
      UpdateIsDivision(w, x); UpdateIsDivision(w, y);
      FeedBurstInjective(w, MessageBits(x), MessageBits(y));
      MessageBitsInjective(x, y);
    }
  }

  // ---- The code ----

  function Entries(): (table: seq<Word>)
    ensures |table| == 256 && forall i: byte :: table[i] == TableEntry(i)
  {
    seq(256, i requires 0 <= i < 256 => TableEntry(i))
  }

  const TABLE: seq<Word> := Entries()

  /** `makeCrc32cTable`. */
  method MakeTable() returns (table: array<Word>)
    ensures fresh(table) && table[..] == TABLE
  {
    hide Steps, TableEntry;
    table := new Word[256](_ => Falses(32));
    for i := 0 to 256
      invariant forall j :: 0 <= j < i ==> table[j] == TABLE[j]
    {
      table[i] := MakeEntry(i);
    }
  }

  method MakeEntry(i: byte) returns (crc: Word)
    ensures crc == TableEntry(i)
  {
    hide Step, Bits;
    crc := Widen(Bits(i, 8));
    for bit := 0 to 8
      invariant Steps(crc, 8 - bit) == TableEntry(i)
    {
      ghost var was := crc;
      crc := if crc[0] then Xor(ShiftRight(crc, 1), POLYNOMIAL) else ShiftRight(crc, 1);
      IsStep(was);
    }
  }

  lemma IsStep(w: Word)
    ensures Step(w) == if w[0] then Xor(ShiftRight(w, 1), POLYNOMIAL) else ShiftRight(w, 1)
  {
  }

  /** `crc32cUpdate`. */
  method UpdateRegister(state: Word, data: Bytes) returns (crc: Word)
    ensures crc == FeedBits(state, MessageBits(data))
  {
    UpdateIsDivision(state, data);
    crc := state;
    for i := 0 to |data|
      invariant Update(crc, data[i..]) == Update(state, data)
    {
      crc := Xor(TABLE[TableIndex(crc, data[i])], ShiftRight(crc, 8));
      assert data[i..][0] == data[i] && data[i..][1..] == data[i + 1..];
    }
  }

  /** The streaming checksum: `update` may be called any number of times. */
  class Crc32c {
    var state: Word
    ghost var fed: Bytes

    ghost predicate Valid()
      reads this
    {
      state == Update(ONES, fed)
    }

    constructor ()
      ensures Valid() && fed == []
    {
      state := ONES;
      fed := [];
    }

    method Feed(data: Bytes)
      requires Valid()
      modifies this
      ensures Valid() && fed == old(fed) + data
    {
      UpdateIsDivision(state, data);
      UpdateConcat(ONES, fed, data);
      state := UpdateRegister(state, data);
      fed := fed + data;
    }

    /** The value so far depends only on everything fed, however it was divided. */
    method Value() returns (crc: u32)
      requires Valid()
      ensures crc == RunningChecksum(fed)
    {
      crc := Register(state);
    }
  }
}
