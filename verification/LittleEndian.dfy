/** Fixed-width integers as bytes, least significant first, and most significant first for SHA-256's length field. */
module LittleEndian {
  import opened Prelude

  function Pow256(n: nat): (p: nat)
    ensures p > 0
  {
    if n == 0 then 1 else 256 * Pow256(n - 1)
  }

  /** The store loops: byte i is bits 8i to 8i + 7. */
  function Store(v: nat, n: nat): (b: Bytes)
    ensures |b| == n
  {
    if n == 0 then [] else [v % 256] + Store(v / 256, n - 1)
  }

  function Load(b: Bytes): (v: nat)
    ensures v < Pow256(|b|)
  {
    if b == [] then 0 else b[0] + 256 * Load(b[1..])
  }

  lemma {:induction false} LoadOfStore(v: nat, n: nat)
    requires v < Pow256(n)
    ensures Load(Store(v, n)) == v
  {
    if n > 0 { LoadOfStore(v / 256, n - 1); }
  }

  lemma {:induction false} StoreOfLoad(b: Bytes)
    ensures Store(Load(b), |b|) == b
  {
    if b != [] {
      StoreOfLoad(b[1..]);
      assert b == [b[0]] + b[1..];
    }
  }

  lemma Widths()
    ensures Pow256(1) == 256 && Pow256(2) == U16_LIMIT && Pow256(4) == U32_LIMIT && Pow256(8) == U64_LIMIT
  {
    assert Pow256(2) == 65536;
    assert Pow256(4) == 65536 * Pow256(2);
    assert Pow256(6) == 65536 * Pow256(4);
    assert Pow256(8) == 65536 * Pow256(6);
  }

  function Store16(v: u16): (b: Bytes)
    ensures |b| == 2
  {
    Store(v, 2)
  }

  function Store32(v: u32): (b: Bytes)
    ensures |b| == 4
  {
    Store(v, 4)
  }

  function Store64(v: u64): (b: Bytes)
    ensures |b| == 8
  {
    Store(v, 8)
  }

  function Load16(b: Bytes): u16
    requires |b| == 2
  {
    Widths();
    Load(b)
  }

  function Load32(b: Bytes): u32
    requires |b| == 4
  {
    Widths();
    Load(b)
  }

  function Load64(b: Bytes): u64
    requires |b| == 8
  {
    Widths();
    Load(b)
  }

  lemma RoundTrip16(v: u16)
    ensures Load16(Store16(v)) == v
  {
    Widths();
    LoadOfStore(v, 2);
  }

  lemma RoundTrip32(v: u32)
    ensures Load32(Store32(v)) == v
  {
    Widths();
    LoadOfStore(v, 4);
  }

  lemma RoundTrip64(v: u64)
    ensures Load64(Store64(v)) == v
  {
    Widths();
    LoadOfStore(v, 8);
  }

  lemma Again16(b: Bytes)
    requires |b| == 2
    ensures Store16(Load16(b)) == b
  {
    StoreOfLoad(b);
  }

  lemma Again32(b: Bytes)
    requires |b| == 4
    ensures Store32(Load32(b)) == b
  {
    StoreOfLoad(b);
  }

  lemma Again64(b: Bytes)
    requires |b| == 8
    ensures Store64(Load64(b)) == b
  {
    StoreOfLoad(b);
  }
}
