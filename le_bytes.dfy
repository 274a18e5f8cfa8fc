/**
 * Little-endian byte encoding of unsigned integers, as used by Rust's
 * `u64::to_le_bytes` / `u64::from_le_bytes` and by the client's
 * `toArrayLike(Buffer, "le", 8)`: the escrow seed enters every address
 * derivation as these eight bytes.
 */
module LeBytes {

  newtype u8 = x: int | 0 <= x < 0x100
  newtype u64 = x: int | 0 <= x < 0x1_0000_0000_0000_0000

  const U64_MAX: nat := 0xFFFF_FFFF_FFFF_FFFF

  /** 256^n, the number of distinct n-byte strings. */
  function Pow256(n: nat): (p: nat)
    ensures p > 0
  {
    if n == 0 then 1 else 256 * Pow256(n - 1)
  }

  /** The n lowest bytes of x, least significant byte first. */
  function ToLe(x: nat, n: nat): (b: seq<u8>)
    ensures |b| == n
  {
    if n == 0 then [] else [(x % 256) as u8] + ToLe(x / 256, n - 1)
  }

  /** The value of a little-endian byte string. */
  function FromLe(b: seq<u8>): (x: nat)
    ensures x < Pow256(|b|)
  {
    if b == [] then 0 else b[0] as nat + 256 * FromLe(b[1..])
  }

  lemma {:induction false} FromLeToLe(x: nat, n: nat)
    requires x < Pow256(n)
    ensures FromLe(ToLe(x, n)) == x
  {
    if n > 0 {
      var b := ToLe(x, n);
      assert b[1..] == ToLe(x / 256, n - 1);
      assert x / 256 < Pow256(n - 1);
      FromLeToLe(x / 256, n - 1);
    }
  }

  lemma {:induction false} ToLeFromLe(b: seq<u8>)
    ensures ToLe(FromLe(b), |b|) == b
  {
    if b != [] {
      var x := FromLe(b);
      var y := FromLe(b[1..]);
      assert x == b[0] as nat + 256 * y;
      assert x % 256 == b[0] as nat && x / 256 == y;
      ToLeFromLe(b[1..]);
      assert ToLe(x, |b|) == [b[0]] + b[1..];
    }
  }

  lemma Pow256Of8()
    ensures Pow256(8) == 0x1_0000_0000_0000_0000
  {
  }

  /** `seed.to_le_bytes()`: always exactly eight bytes. */
  function ToLeBytes(x: u64): (b: seq<u8>)
    ensures |b| == 8
  {
    ToLe(x as nat, 8)
  }

  /** `u64::from_le_bytes` on an eight-byte array. */
  function FromLeBytes(b: seq<u8>): (x: u64)
    requires |b| == 8
  {
    Pow256Of8();
    FromLe(b) as u64
  }

  /** Decoding the eight bytes gives back the seed. */
  lemma LeBytesRoundTrip(x: u64)
    ensures FromLeBytes(ToLeBytes(x)) == x
  {
    Pow256Of8();
    FromLeToLe(x as nat, 8);
  }

  /** Every eight-byte string is the encoding of the value it decodes to. */
  lemma LeBytesOnto(b: seq<u8>)
    requires |b| == 8
    ensures ToLeBytes(FromLeBytes(b)) == b
  {
    ToLeFromLe(b);
  }

  /** Distinct seeds have distinct encodings. */
  lemma LeBytesInjective(x: u64, y: u64)
    ensures ToLeBytes(x) == ToLeBytes(y) <==> x == y
  {
    if ToLeBytes(x) == ToLeBytes(y) {
      LeBytesRoundTrip(x);
      LeBytesRoundTrip(y);
    }
  }
}
