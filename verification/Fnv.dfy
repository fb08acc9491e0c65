// The 128-bit FNV-1a hash of the author evidence fingerprint
// (crates/livrarr-db/src/sqlite_author_link.rs:684-697), with the offset basis
// and prime of section 5 of draft-eastlake-fnv.
module Fnv {

  type byte = b: int | 0 <= b < 256

  const MODULUS: int := 0x1_0000_0000_0000_0000_0000_0000_0000_0000
  const OFFSET_BASIS: int := 0x6c62_272e_07bb_0142_62b8_2175_6295_c58d
  const PRIME: int := 0x0000_0000_0100_0000_0000_0000_0000_013b
  // PRIME is odd, hence a unit modulo 2^128; this is its inverse.
  const PRIME_INVERSE: int := 0xb104_1ad2_562f_f2ff_2ff2_ff2f_f2ff_2ff3

  type State = h: int | 0 <= h < MODULUS

  // Exclusive or of the low `n` bits.
  function Xor(n: nat, x: nat, y: nat): (r: nat)
    requires x < Pow2(n) && y < Pow2(n)
    ensures r < Pow2(n)
  {
    if n == 0 then 0 else 2 * Xor(n - 1, x / 2, y / 2) + (if x % 2 == y % 2 then 0 else 1)
  }

  function Pow2(n: nat): (r: nat)
    ensures r > 0
  {
    if n == 0 then 1 else 2 * Pow2(n - 1)
  }

  const BYTE_BITS: nat := 8

  lemma ByteRange()
    ensures Pow2(BYTE_BITS) == 256
  {
    assert Pow2(4) == 16;
    assert Pow2(8) == 2 * Pow2(7) == 4 * Pow2(6) == 8 * Pow2(5) == 16 * Pow2(4);
  }

  function Xor8(x: byte, y: byte): byte {
    ByteRange();
    Xor(BYTE_BITS, x, y)
  }

  // `hash ^= u128::from(byte)`: only the low eight bits can change.
  function XorLow(h: State, b: byte): State {
    h - h % 256 + Xor8(h % 256, b)
  }

  // `hash.wrapping_mul(FNV_PRIME_128)` on a u128.
  function MulPrime(h: State): State {
    h * PRIME % MODULUS
  }

  function Absorb(h: State, b: byte): State {
    MulPrime(XorLow(h, b))
  }

  function Hash(h: State, bytes: seq<byte>): State
    decreases |bytes|
  {
    if bytes == [] then h else Hash(Absorb(h, bytes[0]), bytes[1..])
  }

  lemma {:induction false} HashSnoc(h: State, bytes: seq<byte>, b: byte)
    ensures Hash(h, bytes + [b]) == Absorb(Hash(h, bytes), b)
    decreases |bytes|
  {
    if bytes == [] {
      assert [b][1..] == [];
      assert Hash(Absorb(h, b), []) == Absorb(h, b);
    } else {
      assert (bytes + [b])[1..] == bytes[1..] + [b];
      HashSnoc(Absorb(h, bytes[0]), bytes[1..], b);
    }
  }

  method Fnv1a128(bytes: seq<byte>) returns (hash: State)
    ensures hash == Hash(OFFSET_BASIS, bytes)
  {
    hash := OFFSET_BASIS;
    for i := 0 to |bytes|
      invariant hash == Hash(OFFSET_BASIS, bytes[..i])
    {
      assert bytes[..i + 1] == bytes[..i] + [bytes[i]];
      HashSnoc(OFFSET_BASIS, bytes[..i], bytes[i]);
      hash := XorLow(hash, bytes[i]);
      hash := MulPrime(hash);
    }
    assert bytes[..|bytes|] == bytes;
  }

  lemma Halves(p: nat, s: nat, q: nat, t: nat)
    requires s < 2 && t < 2 && 2 * p + s == 2 * q + t
    ensures p == q && s == t
  {}

  // Xor with a fixed operand is injective in the other one.
  lemma {:induction false} XorInjective(n: nat, x: nat, y: nat, b: nat)
    requires x < Pow2(n) && y < Pow2(n) && b < Pow2(n)
    requires Xor(n, x, b) == Xor(n, y, b)
    ensures x == y
  {
    if n > 0 {
      var p, q := Xor(n - 1, x / 2, b / 2), Xor(n - 1, y / 2, b / 2);
      assert p == q && x % 2 == y % 2 by {
        Halves(p, if x % 2 == b % 2 then 0 else 1, q, if y % 2 == b % 2 then 0 else 1);
      }
      XorInjective(n - 1, x / 2, y / 2, b / 2);
    }
  }

  lemma {:induction false} XorCommutes(n: nat, x: nat, y: nat)
    requires x < Pow2(n) && y < Pow2(n)
    ensures Xor(n, x, y) == Xor(n, y, x)
  {
    if n > 0 {
      XorCommutes(n - 1, x / 2, y / 2);
    }
  }

  lemma XorLowInjective(g: State, h: State, b: byte)
    requires XorLow(g, b) == XorLow(h, b)
    ensures g == h
  {
    assert g == g / 256 * 256 + g % 256 && h == h / 256 * 256 + h % 256;
    assert g / 256 == h / 256 && Xor8(g % 256, b) == Xor8(h % 256, b);
    ByteRange();
    XorInjective(BYTE_BITS, g % 256, h % 256, b);
  }

  lemma XorLowSeparates(h: State, b: byte, c: byte)
    requires XorLow(h, b) == XorLow(h, c)
    ensures b == c
  {
    ByteRange();
    XorCommutes(BYTE_BITS, h % 256, b);
    XorCommutes(BYTE_BITS, h % 256, c);
    XorInjective(BYTE_BITS, b, c, h % 256);
  }

  lemma MulPrimeInjective(g: State, h: State)
    requires MulPrime(g) == MulPrime(h)
    ensures g == h
  {
    var a, b := g * PRIME / MODULUS, h * PRIME / MODULUS;
    assert (g - h) * PRIME == (a - b) * MODULUS;
    var u := PRIME * PRIME_INVERSE / MODULUS;
    assert PRIME * PRIME_INVERSE == u * MODULUS + 1;
    assert (g - h) * PRIME * PRIME_INVERSE == (g - h) * (u * MODULUS + 1);
    assert g - h == MODULUS * ((a - b) * PRIME_INVERSE - (g - h) * u);
  }

  // Different states stay different whatever bytes follow.
  lemma {:induction false} SuffixInjective(g: State, h: State, bytes: seq<byte>)
    requires Hash(g, bytes) == Hash(h, bytes)
    ensures g == h
    decreases |bytes|
  {
    if bytes != [] {
      SuffixInjective(Absorb(g, bytes[0]), Absorb(h, bytes[0]), bytes[1..]);
      MulPrimeInjective(XorLow(g, bytes[0]), XorLow(h, bytes[0]));
      XorLowInjective(g, h, bytes[0]);
    }
  }

  lemma {:induction false} HashConcat(h: State, xs: seq<byte>, ys: seq<byte>)
    ensures Hash(h, xs + ys) == Hash(Hash(h, xs), ys)
    decreases |xs|
  {
    if xs == [] {
      assert xs + ys == ys;
    } else {
      assert (xs + ys)[1..] == xs[1..] + ys;
      HashConcat(Absorb(h, xs[0]), xs[1..], ys);
    }
  }

  lemma SplitAt(h: State, xs: seq<byte>, k: nat)
    requires k < |xs|
    ensures Hash(h, xs) == Hash(Absorb(Hash(h, xs[..k]), xs[k]), xs[k + 1..])
  {
    assert xs == xs[..k] + xs[k..];
    HashConcat(h, xs[..k], xs[k..]);
  }

  // Two buffers of one length that differ in exactly one byte never collide:
  // the xor separates the two states and every later step is injective.
  lemma OneByteNeverCollides(h: State, xs: seq<byte>, ys: seq<byte>, k: nat)
    requires k < |xs| == |ys| && xs[k] != ys[k]
    requires forall i :: 0 <= i < |xs| && i != k ==> xs[i] == ys[i]
    ensures Hash(h, xs) != Hash(h, ys)
  {
    SplitAt(h, xs, k);
    SplitAt(h, ys, k);
    assert xs[..k] == ys[..k] && xs[k + 1..] == ys[k + 1..];
    var mid := Hash(h, xs[..k]);
    if Hash(h, xs) == Hash(h, ys) {
      SuffixInjective(Absorb(mid, xs[k]), Absorb(mid, ys[k]), xs[k + 1..]);
      MulPrimeInjective(XorLow(mid, xs[k]), XorLow(mid, ys[k]));
      XorLowSeparates(mid, xs[k], ys[k]);
    }
  }
}
