/**
  Where the constants of SHA-256 come from: sections 4.2.2 and 5.3.3 of FIPS 180-4.  They are the first 32 bits of the
  fractional parts of the cube roots of the first sixty-four primes, and of the square roots of the first eight.
*/
module Sha256Constants {
  import opened Sha256Spec

  const TWO_64: int := 0x1_0000_0000_0000_0000
  const TWO_96: int := 0x1_0000_0000_0000_0000_0000_0000

  /** `w` is the first 32 bits of the fractional part of the cube root of `p`, whose whole part is `whole`. */
  predicate IsCubeRoot(w: int, whole: nat, p: nat) {
    var n := whole * TWO_32 + w;
    0 <= w < TWO_32 && n * n * n <= p * TWO_96 < (n + 1) * (n + 1) * (n + 1)
  }

  predicate IsSquareRoot(w: int, whole: nat, p: nat) {
    var n := whole * TWO_32 + w;
    0 <= w < TWO_32 && n * n <= p * TWO_64 < (n + 1) * (n + 1)
  }

  ghost predicate HasCubeRoot(w: int, p: nat) { exists whole :: IsCubeRoot(w, whole, p) }

  ghost predicate HasSquareRoot(w: int, p: nat) { exists whole :: IsSquareRoot(w, whole, p) }

  /** Word by word, `words` belong to `primes`. */
  ghost predicate CubeRoots(words: seq<Word>, primes: seq<nat>) {
    |words| == |primes| && forall t | 0 <= t < |words| :: HasCubeRoot(words[t], primes[t])
  }

  ghost predicate SquareRoots(words: seq<Word>, primes: seq<nat>) {
    |words| == |primes| && forall t | 0 <= t < |words| :: HasSquareRoot(words[t], primes[t])
  }

  lemma CubeRootsJoin(a: seq<Word>, b: seq<Word>, p: seq<nat>, q: seq<nat>)
    requires CubeRoots(a, p) && CubeRoots(b, q)
    ensures CubeRoots(a + b, p + q)
  {
    hide HasCubeRoot;
  }

  const P0: seq<nat> := [2, 3, 5, 7, 11, 13, 17, 19]
  const P1: seq<nat> := [23, 29, 31, 37, 41, 43, 47, 53]
  const P2: seq<nat> := [59, 61, 67, 71, 73, 79, 83, 89]
  const P3: seq<nat> := [97, 101, 103, 107, 109, 113, 127, 131]
  const P4: seq<nat> := [137, 139, 149, 151, 157, 163, 167, 173]
  const P5: seq<nat> := [179, 181, 191, 193, 197, 199, 211, 223]
  const P6: seq<nat> := [227, 229, 233, 239, 241, 251, 257, 263]
  const P7: seq<nat> := [269, 271, 277, 281, 283, 293, 307, 311]

  const FIRST_PRIMES: seq<nat> := P0 + P1 + P2 + P3 + P4 + P5 + P6 + P7

  lemma Row0()
    ensures CubeRoots(K0, P0)
  {
    assert IsCubeRoot(0x428a2f98, 1, 2);
    assert IsCubeRoot(0x71374491, 1, 3);
    assert IsCubeRoot(0xb5c0fbcf, 1, 5);
    assert IsCubeRoot(0xe9b5dba5, 1, 7);
    assert IsCubeRoot(0x3956c25b, 2, 11);
    assert IsCubeRoot(0x59f111f1, 2, 13);
    assert IsCubeRoot(0x923f82a4, 2, 17);
    assert IsCubeRoot(0xab1c5ed5, 2, 19);
    hide IsCubeRoot;
    assert HasCubeRoot(K0[0], P0[0]);
    assert HasCubeRoot(K0[1], P0[1]);
    assert HasCubeRoot(K0[2], P0[2]);
    assert HasCubeRoot(K0[3], P0[3]);
    assert HasCubeRoot(K0[4], P0[4]);
    assert HasCubeRoot(K0[5], P0[5]);
    assert HasCubeRoot(K0[6], P0[6]);
    assert HasCubeRoot(K0[7], P0[7]);
  }

  lemma Row1()
    ensures CubeRoots(K1, P1)
  {
    assert IsCubeRoot(0xd807aa98, 2, 23);
    assert IsCubeRoot(0x12835b01, 3, 29);
    assert IsCubeRoot(0x243185be, 3, 31);
    assert IsCubeRoot(0x550c7dc3, 3, 37);
    assert IsCubeRoot(0x72be5d74, 3, 41);
    assert IsCubeRoot(0x80deb1fe, 3, 43);
    assert IsCubeRoot(0x9bdc06a7, 3, 47);
    assert IsCubeRoot(0xc19bf174, 3, 53);
    hide IsCubeRoot;
    assert HasCubeRoot(K1[0], P1[0]);
    assert HasCubeRoot(K1[1], P1[1]);
    assert HasCubeRoot(K1[2], P1[2]);
    assert HasCubeRoot(K1[3], P1[3]);
    assert HasCubeRoot(K1[4], P1[4]);
    assert HasCubeRoot(K1[5], P1[5]);
    assert HasCubeRoot(K1[6], P1[6]);
    assert HasCubeRoot(K1[7], P1[7]);
  }

  lemma Row2()
    ensures CubeRoots(K2, P2)
  {
    assert IsCubeRoot(0xe49b69c1, 3, 59);
    assert IsCubeRoot(0xefbe4786, 3, 61);
    assert IsCubeRoot(0x0fc19dc6, 4, 67);
    assert IsCubeRoot(0x240ca1cc, 4, 71);
    assert IsCubeRoot(0x2de92c6f, 4, 73);
    assert IsCubeRoot(0x4a7484aa, 4, 79);
    assert IsCubeRoot(0x5cb0a9dc, 4, 83);
    assert IsCubeRoot(0x76f988da, 4, 89);
    hide IsCubeRoot;
    assert HasCubeRoot(K2[0], P2[0]);
    assert HasCubeRoot(K2[1], P2[1]);
    assert HasCubeRoot(K2[2], P2[2]);
    assert HasCubeRoot(K2[3], P2[3]);
    assert HasCubeRoot(K2[4], P2[4]);
    assert HasCubeRoot(K2[5], P2[5]);
    assert HasCubeRoot(K2[6], P2[6]);
    assert HasCubeRoot(K2[7], P2[7]);
  }

  lemma Row3()
    ensures CubeRoots(K3, P3)
  {
    assert IsCubeRoot(0x983e5152, 4, 97);
    assert IsCubeRoot(0xa831c66d, 4, 101);
    assert IsCubeRoot(0xb00327c8, 4, 103);
    assert IsCubeRoot(0xbf597fc7, 4, 107);
    assert IsCubeRoot(0xc6e00bf3, 4, 109);
    assert IsCubeRoot(0xd5a79147, 4, 113);
    assert IsCubeRoot(0x06ca6351, 5, 127);
    assert IsCubeRoot(0x14292967, 5, 131);
    hide IsCubeRoot;
    assert HasCubeRoot(K3[0], P3[0]);
    assert HasCubeRoot(K3[1], P3[1]);
    assert HasCubeRoot(K3[2], P3[2]);
    assert HasCubeRoot(K3[3], P3[3]);
    assert HasCubeRoot(K3[4], P3[4]);
    assert HasCubeRoot(K3[5], P3[5]);
    assert HasCubeRoot(K3[6], P3[6]);
    assert HasCubeRoot(K3[7], P3[7]);
  }

  lemma Row4()
    ensures CubeRoots(K4, P4)
  {
    assert IsCubeRoot(0x27b70a85, 5, 137);
    assert IsCubeRoot(0x2e1b2138, 5, 139);
    assert IsCubeRoot(0x4d2c6dfc, 5, 149);
    assert IsCubeRoot(0x53380d13, 5, 151);
    assert IsCubeRoot(0x650a7354, 5, 157);
    assert IsCubeRoot(0x766a0abb, 5, 163);
    assert IsCubeRoot(0x81c2c92e, 5, 167);
    assert IsCubeRoot(0x92722c85, 5, 173);
    hide IsCubeRoot;
    assert HasCubeRoot(K4[0], P4[0]);
    assert HasCubeRoot(K4[1], P4[1]);
    assert HasCubeRoot(K4[2], P4[2]);
    assert HasCubeRoot(K4[3], P4[3]);
    assert HasCubeRoot(K4[4], P4[4]);
    assert HasCubeRoot(K4[5], P4[5]);
    assert HasCubeRoot(K4[6], P4[6]);
    assert HasCubeRoot(K4[7], P4[7]);
  }

  lemma Row5()
    ensures CubeRoots(K5, P5)
  {
    assert IsCubeRoot(0xa2bfe8a1, 5, 179);
    assert IsCubeRoot(0xa81a664b, 5, 181);
    assert IsCubeRoot(0xc24b8b70, 5, 191);
    assert IsCubeRoot(0xc76c51a3, 5, 193);
    assert IsCubeRoot(0xd192e819, 5, 197);
    assert IsCubeRoot(0xd6990624, 5, 199);
    assert IsCubeRoot(0xf40e3585, 5, 211);
    assert IsCubeRoot(0x106aa070, 6, 223);
    hide IsCubeRoot;
    assert HasCubeRoot(K5[0], P5[0]);
    assert HasCubeRoot(K5[1], P5[1]);
    assert HasCubeRoot(K5[2], P5[2]);
    assert HasCubeRoot(K5[3], P5[3]);
    assert HasCubeRoot(K5[4], P5[4]);
    assert HasCubeRoot(K5[5], P5[5]);
    assert HasCubeRoot(K5[6], P5[6]);
    assert HasCubeRoot(K5[7], P5[7]);
  }

  lemma Row6()
    ensures CubeRoots(K6, P6)
  {
    assert IsCubeRoot(0x19a4c116, 6, 227);
    assert IsCubeRoot(0x1e376c08, 6, 229);
    assert IsCubeRoot(0x2748774c, 6, 233);
    assert IsCubeRoot(0x34b0bcb5, 6, 239);
    assert IsCubeRoot(0x391c0cb3, 6, 241);
    assert IsCubeRoot(0x4ed8aa4a, 6, 251);
    assert IsCubeRoot(0x5b9cca4f, 6, 257);
    assert IsCubeRoot(0x682e6ff3, 6, 263);
    hide IsCubeRoot;
    assert HasCubeRoot(K6[0], P6[0]);
    assert HasCubeRoot(K6[1], P6[1]);
    assert HasCubeRoot(K6[2], P6[2]);
    assert HasCubeRoot(K6[3], P6[3]);
    assert HasCubeRoot(K6[4], P6[4]);
    assert HasCubeRoot(K6[5], P6[5]);
    assert HasCubeRoot(K6[6], P6[6]);
    assert HasCubeRoot(K6[7], P6[7]);
  }

  lemma Row7()
    ensures CubeRoots(K7, P7)
  {
    assert IsCubeRoot(0x748f82ee, 6, 269);
    assert IsCubeRoot(0x78a5636f, 6, 271);
    assert IsCubeRoot(0x84c87814, 6, 277);
    assert IsCubeRoot(0x8cc70208, 6, 281);
    assert IsCubeRoot(0x90befffa, 6, 283);
    assert IsCubeRoot(0xa4506ceb, 6, 293);
    assert IsCubeRoot(0xbef9a3f7, 6, 307);
    assert IsCubeRoot(0xc67178f2, 6, 311);
    hide IsCubeRoot;
    assert HasCubeRoot(K7[0], P7[0]);
    assert HasCubeRoot(K7[1], P7[1]);
    assert HasCubeRoot(K7[2], P7[2]);
    assert HasCubeRoot(K7[3], P7[3]);
    assert HasCubeRoot(K7[4], P7[4]);
    assert HasCubeRoot(K7[5], P7[5]);
    assert HasCubeRoot(K7[6], P7[6]);
    assert HasCubeRoot(K7[7], P7[7]);
  }

  lemma RoundConstants()
    ensures CubeRoots(K, FIRST_PRIMES)
  {
    Row0();
    Row1();
    Row2();
    Row3();
    Row4();
    Row5();
    Row6();
    Row7();
    hide CubeRoots;
    CubeRootsJoin(K0, K1, P0, P1);
    CubeRootsJoin(K0 + K1, K2, P0 + P1, P2);
    CubeRootsJoin(K0 + K1 + K2, K3, P0 + P1 + P2, P3);
    CubeRootsJoin(K0 + K1 + K2 + K3, K4, P0 + P1 + P2 + P3, P4);
    CubeRootsJoin(K0 + K1 + K2 + K3 + K4, K5, P0 + P1 + P2 + P3 + P4, P5);
    CubeRootsJoin(K0 + K1 + K2 + K3 + K4 + K5, K6, P0 + P1 + P2 + P3 + P4 + P5, P6);
    CubeRootsJoin(K0 + K1 + K2 + K3 + K4 + K5 + K6, K7, P0 + P1 + P2 + P3 + P4 + P5 + P6, P7);
  }

  lemma InitialValue()
    ensures SquareRoots(H0, P0)
  {
    assert IsSquareRoot(0x6a09e667, 1, 2);
    assert IsSquareRoot(0xbb67ae85, 1, 3);
    assert IsSquareRoot(0x3c6ef372, 2, 5);
    assert IsSquareRoot(0xa54ff53a, 2, 7);
    assert IsSquareRoot(0x510e527f, 3, 11);
    assert IsSquareRoot(0x9b05688c, 3, 13);
    assert IsSquareRoot(0x1f83d9ab, 4, 17);
    assert IsSquareRoot(0x5be0cd19, 4, 19);
    hide IsSquareRoot;
    assert HasSquareRoot(H0[0], P0[0]);
    assert HasSquareRoot(H0[1], P0[1]);
    assert HasSquareRoot(H0[2], P0[2]);
    assert HasSquareRoot(H0[3], P0[3]);
    assert HasSquareRoot(H0[4], P0[4]);
    assert HasSquareRoot(H0[5], P0[5]);
    assert HasSquareRoot(H0[6], P0[6]);
    assert HasSquareRoot(H0[7], P0[7]);
  }
}
