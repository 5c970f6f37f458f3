/** SHA-256 as written in FIPS 180-4 (sections 4.1.2, 4.2.2, 5.1.1, 5.3.3 and 6.2.2). */
module Sha256Spec {
  import opened Common

  const TWO_32: int := 0x1_0000_0000

  type Word = w: int | 0 <= w < 0x1_0000_0000

  const K0: seq<Word> := [0x428a2f98, 0x71374491, 0xb5c0fbcf, 0xe9b5dba5, 0x3956c25b, 0x59f111f1, 0x923f82a4, 0xab1c5ed5]
  const K1: seq<Word> := [0xd807aa98, 0x12835b01, 0x243185be, 0x550c7dc3, 0x72be5d74, 0x80deb1fe, 0x9bdc06a7, 0xc19bf174]
  const K2: seq<Word> := [0xe49b69c1, 0xefbe4786, 0x0fc19dc6, 0x240ca1cc, 0x2de92c6f, 0x4a7484aa, 0x5cb0a9dc, 0x76f988da]
  const K3: seq<Word> := [0x983e5152, 0xa831c66d, 0xb00327c8, 0xbf597fc7, 0xc6e00bf3, 0xd5a79147, 0x06ca6351, 0x14292967]
  const K4: seq<Word> := [0x27b70a85, 0x2e1b2138, 0x4d2c6dfc, 0x53380d13, 0x650a7354, 0x766a0abb, 0x81c2c92e, 0x92722c85]
  const K5: seq<Word> := [0xa2bfe8a1, 0xa81a664b, 0xc24b8b70, 0xc76c51a3, 0xd192e819, 0xd6990624, 0xf40e3585, 0x106aa070]
  const K6: seq<Word> := [0x19a4c116, 0x1e376c08, 0x2748774c, 0x34b0bcb5, 0x391c0cb3, 0x4ed8aa4a, 0x5b9cca4f, 0x682e6ff3]
  const K7: seq<Word> := [0x748f82ee, 0x78a5636f, 0x84c87814, 0x8cc70208, 0x90befffa, 0xa4506ceb, 0xbef9a3f7, 0xc67178f2]

  const K: seq<Word> := K0 + K1 + K2 + K3 + K4 + K5 + K6 + K7

  const H0: seq<Word> := [
    0x6a09e667, 0xbb67ae85, 0x3c6ef372, 0xa54ff53a, 0x510e527f, 0x9b05688c, 0x1f83d9ab, 0x5be0cd19]

  // ---- Section 4.1.2: functions on 32-bit words ----

  function And(x: Word, y: Word): Word { ((x as bv32) & (y as bv32)) as int }
  function Or(x: Word, y: Word): Word { ((x as bv32) | (y as bv32)) as int }
  function Xor(x: Word, y: Word): Word { ((x as bv32) ^ (y as bv32)) as int }
  function Not(x: Word): Word { (!(x as bv32)) as int }
  function Shr(x: Word, n: nat): Word requires n <= 32 { ((x as bv32) >> (n as bv6)) as int }
  function Shl(x: Word, n: nat): Word requires n <= 32 { ((x as bv32) << (n as bv6)) as int }
  function Rotr(x: Word, n: nat): Word requires n <= 32 { Or(Shr(x, n), Shl(x, 32 - n)) }

  function Ch(x: Word, y: Word, z: Word): Word { Xor(And(x, y), And(Not(x), z)) }
  function Maj(x: Word, y: Word, z: Word): Word { Xor(Xor(And(x, y), And(x, z)), And(y, z)) }
  function BigSigma0(x: Word): Word { Xor(Xor(Rotr(x, 2), Rotr(x, 13)), Rotr(x, 22)) }
  function BigSigma1(x: Word): Word { Xor(Xor(Rotr(x, 6), Rotr(x, 11)), Rotr(x, 25)) }
  function SmallSigma0(x: Word): Word { Xor(Xor(Rotr(x, 7), Rotr(x, 18)), Shr(x, 3)) }
  function SmallSigma1(x: Word): Word { Xor(Xor(Rotr(x, 17), Rotr(x, 19)), Shr(x, 10)) }

  // ---- Section 6.2.2: one block ----

  function BigEndian32(b: seq<Byte>, at: nat): Word
    requires at + 4 <= |b|
  {
    (b[at] as int) * 0x100_0000 + (b[at + 1] as int) * 0x1_0000 + (b[at + 2] as int) * 0x100 + b[at + 3] as int
  }

  function Schedule(block: seq<Byte>, t: nat): Word
    requires |block| == 64
  {
    if t < 16 then BigEndian32(block, 4 * t)
    else (SmallSigma1(Schedule(block, t - 2)) + Schedule(block, t - 7)
          + SmallSigma0(Schedule(block, t - 15)) + Schedule(block, t - 16)) % TWO_32
  }

  datatype Vars = Vars(a: Word, b: Word, c: Word, d: Word, e: Word, f: Word, g: Word, h: Word)

  function T1(v: Vars, k: Word, w: Word): Word {
    (v.h + BigSigma1(v.e) + Ch(v.e, v.f, v.g) + k + w) % TWO_32
  }

  function T2(v: Vars): Word {
    (BigSigma0(v.a) + Maj(v.a, v.b, v.c)) % TWO_32
  }

  function Round(v: Vars, k: Word, w: Word): Vars {
    Vars((T1(v, k, w) + T2(v)) % TWO_32, v.a, v.b, v.c, (v.d + T1(v, k, w)) % TWO_32, v.e, v.f, v.g)
  }

  function Rounds(v: Vars, block: seq<Byte>, t: nat): Vars
    requires |block| == 64 && t <= 64
  {
    if t == 0 then v else Round(Rounds(v, block, t - 1), K[t - 1], Schedule(block, t - 1))
  }

  function ToVars(h: seq<Word>): Vars
    requires |h| == 8
  {
    Vars(h[0], h[1], h[2], h[3], h[4], h[5], h[6], h[7])
  }

  function AddVars(h: seq<Word>, v: Vars): (r: seq<Word>)
    requires |h| == 8
    ensures |r| == 8
  {
    [(h[0] + v.a) % TWO_32, (h[1] + v.b) % TWO_32, (h[2] + v.c) % TWO_32, (h[3] + v.d) % TWO_32,
     (h[4] + v.e) % TWO_32, (h[5] + v.f) % TWO_32, (h[6] + v.g) % TWO_32, (h[7] + v.h) % TWO_32]
  }

  function Compress(h: seq<Word>, block: seq<Byte>): (r: seq<Word>)
    requires |h| == 8 && |block| == 64
    ensures |r| == 8
  {
    AddVars(h, Rounds(ToVars(h), block, 64))
  }

  /** The hash value after all blocks of a padded message. */
  function HashBlocks(h: seq<Word>, m: seq<Byte>): (r: seq<Word>)
    requires |h| == 8 && |m| % 64 == 0
    ensures |r| == 8
    decreases |m|
  {
    if m == [] then h
    else Compress(HashBlocks(h, m[..|m| - 64]), m[|m| - 64..])
  }

  // ---- Section 5.1.1: padding ----

  /** The least k with length + 1 + k congruent to 56 modulo 64. */
  function ZeroBytes(length: nat): (k: nat)
    ensures k < 64 && (length + 1 + k) % 64 == 56 && (length + 1 + k + 8) % 64 == 0
  {
    (119 - length % 64) % 64
  }

  /** The 64-bit big-endian block that holds the bit length. */
  function BigEndian64(v: nat): (r: seq<Byte>)
    ensures |r| == 8
  {
    [v / 0x100_0000_0000_0000 % 256, v / 0x1_0000_0000_0000 % 256, v / 0x100_0000_0000 % 256, v / 0x1_0000_0000 % 256,
     v / 0x100_0000 % 256, v / 0x1_0000 % 256, v / 0x100 % 256, v % 256]
  }

  function Pad(m: seq<Byte>): (r: seq<Byte>)
    ensures |r| % 64 == 0
  {
    var head := m + [0x80] + Zeros(ZeroBytes(|m|));
    assert |head| == |m| + 1 + ZeroBytes(|m|);
    head + BigEndian64(8 * |m|)
  }

  function BytesOf(w: Word): (r: seq<Byte>)
    ensures |r| == 4
  {
    [w / 0x100_0000, w / 0x1_0000 % 256, w / 0x100 % 256, w % 256]
  }

  function Digest(h: seq<Word>): (r: seq<Byte>)
    ensures |r| == 4 * |h|
  {
    if h == [] then [] else Digest(h[..|h| - 1]) + BytesOf(h[|h| - 1])
  }

  function Sha256(m: seq<Byte>): (r: seq<Byte>)
    ensures |r| == 32
  {
    Digest(HashBlocks(H0, Pad(m)))
  }
}
