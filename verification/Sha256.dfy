/** Streaming SHA-256 (src/hash.cpp:14-190) against the hash of the whole padded message, sections 5.1.1 and 6.2.2 of
    FIPS 180-4. */
module Sha256 {
  import opened Prelude
  import opened Words

  type Block = b: Bytes | |b| == 64 witness Zeros(64)

  const BLOCK: nat := 64

  // ---- The compression function (section 6.2.2) ----

  /** The round constants, eight to a row. */
  function Row0(): (k: seq<nat>)
    ensures |k| == 8
  {
    [0x428a2f98, 0x71374491, 0xb5c0fbcf, 0xe9b5dba5, 0x3956c25b, 0x59f111f1, 0x923f82a4, 0xab1c5ed5]
  }

  function Row1(): (k: seq<nat>)
    ensures |k| == 8
  {
    [0xd807aa98, 0x12835b01, 0x243185be, 0x550c7dc3, 0x72be5d74, 0x80deb1fe, 0x9bdc06a7, 0xc19bf174]
  }

  function Row2(): (k: seq<nat>)
    ensures |k| == 8
  {
    [0xe49b69c1, 0xefbe4786, 0x0fc19dc6, 0x240ca1cc, 0x2de92c6f, 0x4a7484aa, 0x5cb0a9dc, 0x76f988da]
  }

  function Row3(): (k: seq<nat>)
    ensures |k| == 8
  {
    [0x983e5152, 0xa831c66d, 0xb00327c8, 0xbf597fc7, 0xc6e00bf3, 0xd5a79147, 0x06ca6351, 0x14292967]
  }

  function Row4(): (k: seq<nat>)
    ensures |k| == 8
  {
    [0x27b70a85, 0x2e1b2138, 0x4d2c6dfc, 0x53380d13, 0x650a7354, 0x766a0abb, 0x81c2c92e, 0x92722c85]
  }

  function Row5(): (k: seq<nat>)
    ensures |k| == 8
  {
    [0xa2bfe8a1, 0xa81a664b, 0xc24b8b70, 0xc76c51a3, 0xd192e819, 0xd6990624, 0xf40e3585, 0x106aa070]
  }

  function Row6(): (k: seq<nat>)
    ensures |k| == 8
  {
    [0x19a4c116, 0x1e376c08, 0x2748774c, 0x34b0bcb5, 0x391c0cb3, 0x4ed8aa4a, 0x5b9cca4f, 0x682e6ff3]
  }

  function Row7(): (k: seq<nat>)
    ensures |k| == 8
  {
    [0x748f82ee, 0x78a5636f, 0x84c87814, 0x8cc70208, 0x90befffa, 0xa4506ceb, 0xbef9a3f7, 0xc67178f2]
  }

  function K(): (k: seq<nat>)
    ensures |k| == 64
  {
    Row0() + Row1() + Row2() + Row3() + Row4() + Row5() + Row6() + Row7()
  }

  function BigEndian32(a: byte, b: byte, c: byte, d: byte): Word {
    Bits(d, 8) + Bits(c, 8) + Bits(b, 8) + Bits(a, 8)
  }

  function Xor3(a: Word, b: Word, c: Word): Word {
    Xor(Xor(a, b), c)
  }

  function Sigma0(w: Word): Word {
    Xor3(RotateRight(w, 7), RotateRight(w, 18), ShiftRight(w, 3))
  }

  function Sigma1(w: Word): Word {
    Xor3(RotateRight(w, 17), RotateRight(w, 19), ShiftRight(w, 10))
  }

  /** The message schedule. */
  function Schedule(block: Block, t: nat): Word {
    if t < 16 then BigEndian32(block[4 * t], block[4 * t + 1], block[4 * t + 2], block[4 * t + 3])
    else
      Plus(Plus(Plus(Schedule(block, t - 16), Sigma0(Schedule(block, t - 15))), Schedule(block, t - 7)),
           Sigma1(Schedule(block, t - 2)))
  }

  /** The eight working variables. */
  datatype Working = Working(a: Word, b: Word, c: Word, d: Word, e: Word, f: Word, g: Word, h: Word)

  function Round(v: Working, k: nat, w: Word): Working {
    var s1 := Xor3(RotateRight(v.e, 6), RotateRight(v.e, 11), RotateRight(v.e, 25));
    var ch := Xor(And(v.e, v.f), And(Not(v.e), v.g));
    var t1 := Plus(Plus(Plus(Plus(v.h, s1), ch), Bits(k, 32)), w);
    var s0 := Xor3(RotateRight(v.a, 2), RotateRight(v.a, 13), RotateRight(v.a, 22));
    var maj := Xor3(And(v.a, v.b), And(v.a, v.c), And(v.b, v.c));
    Working(Plus(t1, Plus(s0, maj)), v.a, v.b, v.c, Plus(v.d, t1), v.e, v.f, v.g)
  }

  function Rounds(v: Working, block: Block, n: nat): Working
    requires n <= |K()|
  {
    if n == 0 then v else Round(Rounds(v, block, n - 1), K()[n - 1], Schedule(block, n - 1))
  }

  function Added(v: Working, w: Working): Working {
    Working(Plus(v.a, w.a), Plus(v.b, w.b), Plus(v.c, w.c), Plus(v.d, w.d),
            Plus(v.e, w.e), Plus(v.f, w.f), Plus(v.g, w.g), Plus(v.h, w.h))
  }

  function Compress(v: Working, block: Block): Working {
    Added(v, Rounds(v, block, |K()|))
  }

  /** `compress`: the schedule is filled in an array, then the rounds update the working variables. */
  method CompressBlock(v: Working, block: Block) returns (r: Working)
    ensures r == Compress(v, block)
  {
    hide Round, K, BigEndian32, Sigma0, Sigma1, Added, Plus;
    var w := new Word[64](_ => Falses(32));
    for i := 0 to 16
      invariant forall j :: 0 <= j < i ==> w[j] == Schedule(block, j)
    {
      w[i] := BigEndian32(block[4 * i], block[4 * i + 1], block[4 * i + 2], block[4 * i + 3]);
    }
    for i := 16 to 64
      invariant forall j :: 0 <= j < i ==> w[j] == Schedule(block, j)
    {
      w[i] := Plus(Plus(Plus(w[i - 16], Sigma0(w[i - 15])), w[i - 7]), Sigma1(w[i - 2]));
    }
    var current := v;
    for i := 0 to |K()|
      invariant forall j :: 0 <= j < 64 ==> w[j] == Schedule(block, j)
      invariant current == Rounds(v, block, i)
    {
      current := Round(current, K()[i], w[i]);
    }
    r := Added(v, current);
  }

  // ---- The whole message ----

  /** The initial hash value (section 5.3.3). */
  predicate IsInitial(v: Working) {
    && Value(v.a) == 0x6a09e667 && Value(v.b) == 0xbb67ae85 && Value(v.c) == 0x3c6ef372 && Value(v.d) == 0xa54ff53a
    && Value(v.e) == 0x510e527f && Value(v.f) == 0x9b05688c && Value(v.g) == 0x1f83d9ab && Value(v.h) == 0x5be0cd19
  }

  method ToWord(v: u32) returns (w: Word)
    ensures Value(w) == v
  {
    Pow2Of32();
    ValueOfBits(v, 32);
    w := Bits(v, 32);
  }

  method InitialValue() returns (v: Working)
    ensures IsInitial(v)
  {
    var a := ToWord(0x6a09e667);
    var b := ToWord(0xbb67ae85);
    var c := ToWord(0x3c6ef372);
    var d := ToWord(0xa54ff53a);
    var e := ToWord(0x510e527f);
    var f := ToWord(0x9b05688c);
    var g := ToWord(0x1f83d9ab);
    var h := ToWord(0x5be0cd19);
    v := Working(a, b, c, d, e, f, g, h);
  }

  /** Every complete block of the message, compressed in order. */
  function Blocks(v: Working, m: Bytes): Working
    decreases |m|
  {
    if |m| < BLOCK then v else Blocks(Compress(v, m[..BLOCK]), m[BLOCK..])
  }

  /** 64-bit counters wrap. */
  function Wrap64(x: nat): u64 {
    x % U64_LIMIT
  }

  lemma WrapAdds(x: nat, y: nat)
    ensures Wrap64(Wrap64(x) + y) == Wrap64(x + y)
  {
    var q := x / U64_LIMIT;
    assert x + y == U64_LIMIT * q + (Wrap64(x) + y);
    WrapSum(q, Wrap64(x) + y);
  }

  lemma WrapTimes(x: nat)
    ensures Wrap64(Wrap64(x) * 8) == Wrap64(x * 8)
  {
    var q := x / U64_LIMIT;
    assert x * 8 == U64_LIMIT * (q * 8) + Wrap64(x) * 8;
    WrapSum(q * 8, Wrap64(x) * 8);
  }

  lemma {:induction false} WrapSum(q: nat, x: nat)
    ensures Wrap64(U64_LIMIT * q + x) == Wrap64(x)
    decreases q
  {
    if q > 0 {
      assert U64_LIMIT * q + x == U64_LIMIT * (q - 1) + (x + U64_LIMIT);
      WrapSum(q - 1, x + U64_LIMIT);
    }
  }

  function BigEndian64(v: u64): (b: Bytes)
    ensures |b| == 8
  {
    BigEndian(v, 8)
  }

  function BigEndian(v: nat, n: nat): (b: Bytes)
    ensures |b| == n
  {
    if n == 0 then [] else BigEndian(v / 256, n - 1) + [v % 256]
  }

  /** The number of zero bytes: the least that brings the length field to the end of a block. */
  function ZeroCount(length: nat): (z: nat)
    ensures z < BLOCK && (length + 1 + z + 8) % BLOCK == 0
  {
    (119 - length % BLOCK) % BLOCK
  }

  /** The padding of section 5.1.1: a one bit, zeros, and the length in bits modulo 2^64. */
  function Padding(length: nat): (p: Bytes)
    ensures (length + |p|) % BLOCK == 0
  {
    [0x80] + Zeros(ZeroCount(length)) + BigEndian64(Wrap64(length * 8))
  }

  function ByteValue(w: seq<bool>): byte
    requires |w| == 8
  {
    assert Pow2(8) == 256;
    Value(w)
  }

  function WordBytes(w: Word): (b: Bytes)
    ensures |b| == 4
  {
    [ByteValue(w[24..]), ByteValue(w[16..24]), ByteValue(w[8..16]), ByteValue(w[..8])]
  }

  function Output(v: Working): (d: Bytes)
    ensures |d| == 32
  {
    WordBytes(v.a) + WordBytes(v.b) + WordBytes(v.c) + WordBytes(v.d)
    + WordBytes(v.e) + WordBytes(v.f) + WordBytes(v.g) + WordBytes(v.h)
  }

  /** The hash of a whole message, from the initial value `start`. */
  function HashFrom(start: Working, m: Bytes): Bytes {
    Output(Blocks(start, m + Padding(|m|)))
  }

  // ---- Cutting the message ----

  lemma {:induction false} BlocksConcat(v: Working, a: Bytes, b: Bytes)
    requires |a| % BLOCK == 0
    ensures Blocks(v, a + b) == Blocks(Blocks(v, a), b)
    decreases |a|
  {
    hide Compress;
    if |a| < BLOCK {
      assert a + b == b;
    } else {
      assert (a + b)[..BLOCK] == a[..BLOCK] && (a + b)[BLOCK..] == a[BLOCK..] + b;
      BlocksConcat(Compress(v, a[..BLOCK]), a[BLOCK..], b);
    }
  }

  lemma OneBlock(v: Working, b: Block)
    ensures Blocks(v, b) == Compress(v, b)
  {
    hide Compress;
    assert b[..BLOCK] == b && |b[BLOCK..]| == 0;
  }

  /** The part of a message that fills whole blocks. */
  function Aligned(m: Bytes): (a: Bytes)
    ensures |a| % BLOCK == 0 && |a| <= |m| < |a| + BLOCK
  {
    m[..|m| - |m| % BLOCK]
  }

  lemma BlocksIgnoresTheTail(v: Working, m: Bytes)
    ensures Blocks(v, m) == Blocks(v, Aligned(m))
  {
    hide Compress;
    var a := Aligned(m);
    assert m == a + m[|a|..];
    BlocksConcat(v, a, m[|a|..]);
  }

  // ---- The hasher ----

  class Sha256 {
    ghost const start: Working
    var state: Working
    const buffer: array<byte>
    var buffered: nat
    var totalBytes: u64
    ghost var fed: Bytes

    /** Whole blocks are in the state, the remainder is in the buffer. */
    ghost predicate Valid()
      reads this, buffer
    {
      && buffer.Length == BLOCK && buffered == |fed| % BLOCK
      && totalBytes == Wrap64(|fed|)
      && IsInitial(start) && state == Blocks(start, fed)
      && buffer[..buffered] == fed[|fed| - buffered..]
    }

    constructor ()
      ensures Valid() && fed == [] && fresh(buffer)
    {
      hide Compress, IsInitial;
      var initial := InitialValue();
      start, state := initial, initial;
      buffer := new byte[BLOCK](_ => 0);
      buffered, totalBytes, fed := 0, 0, [];
    }

    /** The bytes still missing from the buffered block, as many as there are. */
    method FillBuffer(data: Bytes) returns (offset: nat)
      requires buffer.Length == BLOCK && buffered < BLOCK
      modifies this`buffered, buffer
      ensures offset <= |data| && buffered == old(buffered) + offset <= BLOCK
      ensures buffered == BLOCK || offset == |data|
      ensures buffer[..buffered] == old(buffer[..buffered]) + data[..offset]
    {
      offset := 0;
      while buffered < BLOCK && offset < |data|
        invariant offset <= |data| && buffered == old(buffered) + offset <= BLOCK
        invariant buffer[..buffered] == old(buffer[..buffered]) + data[..offset]
      {
        ghost var was := buffer[..buffered];
        buffer[buffered] := data[offset];
        assert buffer[..buffered] == was;
        assert data[..offset + 1] == data[..offset] + [data[offset]];
        buffered, offset := buffered + 1, offset + 1;
        assert buffer[..buffered] == was + [data[offset - 1]];
      }
    }

    /** `update`: top up the held block, compress whole blocks from the input, keep the tail. */
    method Update(data: Bytes)
      requires Valid()
      modifies this, buffer
      ensures Valid() && fed == old(fed) + data
    {
      hide Compress, Blocks, IsInitial, Wrap64;
      ghost var before := fed;
      Aligns(start, before);
      WrapAdds(|fed|, |data|);
      totalBytes := Wrap64(totalBytes + |data|);
      ghost var aligned := before[..|before| - buffered];
      assert before == aligned + buffer[..buffered];
      var offset := 0;
      if buffered > 0 {
        offset, aligned := TopUp(data, before, aligned);
      }
      offset, aligned := WholeBlocks(data, offset, before, aligned);
      offset := StoreTail(data, offset, before, aligned);
      fed := before + data;
      Remains(start, before + data, aligned, buffer[..buffered]);
    }

    method TopUp(data: Bytes, ghost before: Bytes, ghost aligned: Bytes) returns (offset: nat, ghost more: Bytes)
      requires buffer.Length == BLOCK && buffered < BLOCK && |aligned| % BLOCK == 0
      requires before == aligned + buffer[..buffered] && state == Blocks(start, aligned)
      modifies this`buffered, this`state, buffer
      ensures offset <= |data| && |more| % BLOCK == 0 && buffered < BLOCK && (buffered > 0 ==> offset == |data|)
      ensures before + data[..offset] == more + buffer[..buffered] && state == Blocks(start, more)
    {
      hide Compress, Blocks, IsInitial;
      ghost var held := buffer[..buffered];
      offset := FillBuffer(data);
      more := aligned;
      assert before + data[..offset] == aligned + (held + data[..offset]);
      if buffered == BLOCK {
        assert buffer[..] == buffer[..buffered] == held + data[..offset];
        Extended(start, aligned, held + data[..offset]);
        state := CompressBlock(state, buffer[..]);
        buffered := 0;
        more := aligned + (held + data[..offset]);
      }
    }

    method WholeBlocks(data: Bytes, first: nat, ghost before: Bytes, ghost aligned: Bytes) returns (offset: nat, ghost more: Bytes)
      requires first <= |data| && buffer.Length == BLOCK && buffered < BLOCK && |aligned| % BLOCK == 0
      requires buffered > 0 ==> first == |data|
      requires before + data[..first] == aligned + buffer[..buffered] && state == Blocks(start, aligned)
      modifies this`state
      ensures first <= offset <= |data| && |data| - offset < BLOCK && |more| % BLOCK == 0 && (buffered > 0 ==> offset == |data|)
      ensures before + data[..offset] == more + buffer[..buffered] && state == Blocks(start, more)
    {
      hide Compress, Blocks, IsInitial;
      offset, more := first, aligned;
      while |data| - offset >= BLOCK
        invariant first <= offset <= |data| && |more| % BLOCK == 0 && (buffered > 0 ==> offset == |data|)
        invariant before + data[..offset] == more + buffer[..buffered] && state == Blocks(start, more)
      {
        ghost var block := data[offset..offset + BLOCK];
        assert buffer[..buffered] == [];
        assert data[..offset + BLOCK] == data[..offset] + block;
        assert before + data[..offset + BLOCK] == (before + data[..offset]) + block;
        Extended(start, more, block);
        state := CompressBlock(state, data[offset..offset + BLOCK]);
        more, offset := more + block, offset + BLOCK;
      }
    }

    /** The last loop of `update`. */
    method StoreTail(data: Bytes, first: nat, ghost before: Bytes, ghost aligned: Bytes) returns (offset: nat)
      requires buffer.Length == BLOCK && first <= |data| && |data| - first < BLOCK && buffered < BLOCK
      requires buffered > 0 ==> first == |data|
      requires before + data[..first] == aligned + buffer[..buffered]
      modifies this`buffered, buffer
      ensures buffered < BLOCK && before + data == aligned + buffer[..buffered]
    {
      offset := first;
      while offset < |data|
        invariant first <= offset <= |data| && buffered <= offset - first + old(buffered) && (first < |data| ==> buffered == offset - first)
        invariant (first == |data| ==> buffered == old(buffered)) && buffered < BLOCK
        invariant before + data[..offset] == aligned + buffer[..buffered]
      {
        ghost var was := buffer[..buffered];
        buffer[buffered] := data[offset];
        assert buffer[..buffered] == was;
        assert data[..offset + 1] == data[..offset] + [data[offset]];
        buffered, offset := buffered + 1, offset + 1;
        assert buffer[..buffered] == was + [data[offset - 1]];
        assert before + data[..offset] == (before + data[..offset - 1]) + [data[offset - 1]];
      }
      assert data[..offset] == data;
    }

    static lemma Aligns(start: Working, m: Bytes)
      ensures Blocks(start, m) == Blocks(start, m[..|m| - |m| % BLOCK])
      ensures m == m[..|m| - |m| % BLOCK] + m[|m| - |m| % BLOCK..]
    {
      hide Blocks, Compress;
      BlocksIgnoresTheTail(start, m);
    }

    static lemma Extended(start: Working, aligned: Bytes, b: Block)
      requires |aligned| % BLOCK == 0
      ensures Blocks(start, aligned + b) == Compress(Blocks(start, aligned), b)
    {
      BlocksConcat(start, aligned, b);
      OneBlock(Blocks(start, aligned), b);
    }

    static lemma Remains(start: Working, m: Bytes, aligned: Bytes, held: Bytes)
      requires m == aligned + held && |aligned| % BLOCK == 0 && |held| < BLOCK
      ensures |held| == |m| % BLOCK && held == m[|m| - |held|..]
      ensures Blocks(start, m) == Blocks(start, aligned)
    {
      hide Blocks, Compress;
      assert m[..|m| - |m| % BLOCK] == aligned;
      BlocksIgnoresTheTail(start, m);
    }

    /** The final one or two blocks: the held bytes, the marker, zeros and the length. */
    method FinalBlocks() returns (last: Bytes)
      requires Valid()
      ensures last == buffer[..buffered] + Padding(|fed|)
      ensures |last| == 64 || |last| == 128
    {
      hide Blocks, IsInitial, Wrap64, ZeroCount, BigEndian64, BigEndian;
      var held := buffered;
      var afterMarker := (held + 1) % BLOCK;
      var padZeros := if afterMarker <= 56 then 56 - afterMarker else 120 - afterMarker;
      PadLength(|fed|);
      WrapTimes(|fed|);
      var bitLength := Wrap64(totalBytes * 8);
      last := buffer[..held] + [0x80] + Zeros(padZeros) + BigEndian64(bitLength);
    }

    static lemma PadLength(n: nat)
      ensures var afterMarker := (n % BLOCK + 1) % BLOCK;
              ZeroCount(n) == if afterMarker <= 56 then 56 - afterMarker else 120 - afterMarker
    {
    }

    /** `finish`: however the message was divided into updates, the digest is that of the whole message. */
    method Finish() returns (digest: Bytes)
      requires Valid()
      modifies this
      ensures IsInitial(start) && digest == HashFrom(start, old(fed))
    {
      hide Compress, Blocks, Output, Padding, IsInitial, Wrap64;
      var last := FinalBlocks();
      Aligns(start, fed);
      ghost var aligned := fed[..|fed| - buffered];
      BlocksConcat(start, aligned, last);
      assert fed + Padding(|fed|) == aligned + last;
      ghost var entry := state;
      buffered := 0;
      var offset := 0;
      while offset < |last|
        invariant offset <= |last| && offset % BLOCK == 0
        invariant Blocks(state, last[offset..]) == Blocks(entry, last)
      {
        FirstBlock(state, last[offset..]);
        assert last[offset..][..BLOCK] == last[offset..offset + BLOCK] && last[offset..][BLOCK..] == last[offset + BLOCK..];
        state := CompressBlock(state, last[offset..offset + BLOCK]);
        offset := offset + BLOCK;
      }
      FirstBlock(state, []);
      digest := Output(state);
    }

    static lemma FirstBlock(v: Working, m: Bytes)
      ensures Blocks(v, m) == if |m| < BLOCK then v else Blocks(Compress(v, m[..BLOCK]), m[BLOCK..])
    {
      hide Compress;
    }
  }
}
