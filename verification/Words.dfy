/** 32-bit words as their bits, least significant first, so that shifts and exclusive-or are index arithmetic. */
module Words {
  import opened Prelude

  // ---- Words and bits, least significant first ----

  function Pow2(n: nat): (p: nat)
    ensures p > 0
  {
    if n == 0 then 1 else 2 * Pow2(n - 1)
  }

  function Value(w: seq<bool>): (v: nat)
    ensures v < Pow2(|w|)
  {
    if w == [] then 0 else (if w[0] then 1 else 0) + 2 * Value(w[1..])
  }

  function Bits(v: nat, n: nat): (w: seq<bool>)
    ensures |w| == n
  {
    if n == 0 then [] else [v % 2 == 1] + Bits(v / 2, n - 1)
  }

  lemma {:induction false} ValueOfBits(v: nat, n: nat)
    requires v < Pow2(n)
    ensures Value(Bits(v, n)) == v
  {
    if n > 0 { ValueOfBits(v / 2, n - 1); }
  }

  lemma {:induction false} BitsOfValue(w: seq<bool>)
    ensures Bits(Value(w), |w|) == w
  {
    if w != [] {
      BitsOfValue(w[1..]);
      assert Value(w) / 2 == Value(w[1..]) && (Value(w) % 2 == 1 <==> w[0]);
      assert w == [w[0]] + w[1..];
    }
  }

  /** A 32-bit register. */
  type Word = w: seq<bool> | |w| == 32 witness Falses(32)

  function Xor(a: seq<bool>, b: seq<bool>): (c: seq<bool>)
    requires |a| == |b|
    ensures |c| == |a| && forall i :: 0 <= i < |c| ==> c[i] == (a[i] != b[i])
  {
    seq(|a|, i requires 0 <= i < |a| => a[i] != b[i])
  }

  function Falses(n: nat): (z: seq<bool>)
    ensures |z| == n && forall i :: 0 <= i < n ==> !z[i]
  {
    seq(n, _ => false)
  }

  function ShiftRight(w: Word, n: nat): (r: Word)
    requires n <= 32
    ensures forall i :: 0 <= i < 32 ==> r[i] == (i + n < 32 && w[i + n])
  {
    w[n..] + Falses(n)
  }

  function And(a: seq<bool>, b: seq<bool>): (c: seq<bool>)
    requires |a| == |b|
    ensures |c| == |a|
  {
    seq(|a|, i requires 0 <= i < |a| => a[i] && b[i])
  }

  function Not(a: seq<bool>): (c: seq<bool>)
    ensures |c| == |a|
  {
    seq(|a|, i requires 0 <= i < |a| => !a[i])
  }

  function RotateRight(w: Word, n: nat): (r: Word)
    requires n <= 32
  {
    w[n..] + w[..n]
  }

  /** Addition modulo 2^32. */
  function Plus(a: Word, b: Word): Word {
    Bits((Value(a) + Value(b)) % U32_LIMIT, 32)
  }

  lemma Pow2Of32()
    ensures Pow2(32) == U32_LIMIT
  {
    assert Pow2(8) == 256;
    assert Pow2(16) == 0x1_0000;
    assert Pow2(24) == 0x100_0000;
  }
}
