/**
 The constants of `_standalone_sha256_hex` in omg_cli/deny.py, checked against section 4.2.2 and
 section 5.3.3 of FIPS 180-4: the first 32 bits of the fractional parts of roots of the first primes.
 */
module Sha256Constants {
  const K0: seq<int> := [0x428A2F98, 0x71374491, 0xB5C0FBCF, 0xE9B5DBA5, 0x3956C25B, 0x59F111F1, 0x923F82A4, 0xAB1C5ED5]
  const K1: seq<int> := [0xD807AA98, 0x12835B01, 0x243185BE, 0x550C7DC3, 0x72BE5D74, 0x80DEB1FE, 0x9BDC06A7, 0xC19BF174]
  const K2: seq<int> := [0xE49B69C1, 0xEFBE4786, 0x0FC19DC6, 0x240CA1CC, 0x2DE92C6F, 0x4A7484AA, 0x5CB0A9DC, 0x76F988DA]
  const K3: seq<int> := [0x983E5152, 0xA831C66D, 0xB00327C8, 0xBF597FC7, 0xC6E00BF3, 0xD5A79147, 0x06CA6351, 0x14292967]
  const K4: seq<int> := [0x27B70A85, 0x2E1B2138, 0x4D2C6DFC, 0x53380D13, 0x650A7354, 0x766A0ABB, 0x81C2C92E, 0x92722C85]
  const K5: seq<int> := [0xA2BFE8A1, 0xA81A664B, 0xC24B8B70, 0xC76C51A3, 0xD192E819, 0xD6990624, 0xF40E3585, 0x106AA070]
  const K6: seq<int> := [0x19A4C116, 0x1E376C08, 0x2748774C, 0x34B0BCB5, 0x391C0CB3, 0x4ED8AA4A, 0x5B9CCA4F, 0x682E6FF3]
  const K7: seq<int> := [0x748F82EE, 0x78A5636F, 0x84C87814, 0x8CC70208, 0x90BEFFFA, 0xA4506CEB, 0xBEF9A3F7, 0xC67178F2]

  const K: seq<int> := K0 + K1 + K2 + K3 + K4 + K5 + K6 + K7

  const H0: seq<int> := [0x6A09E667, 0xBB67AE85, 0x3C6EF372, 0xA54FF53A, 0x510E527F, 0x9B05688C, 0x1F83D9AB, 0x5BE0CD19]

  const P0: seq<int> := [2, 3, 5, 7, 11, 13, 17, 19]
  const P1: seq<int> := [23, 29, 31, 37, 41, 43, 47, 53]
  const P2: seq<int> := [59, 61, 67, 71, 73, 79, 83, 89]
  const P3: seq<int> := [97, 101, 103, 107, 109, 113, 127, 131]
  const P4: seq<int> := [137, 139, 149, 151, 157, 163, 167, 173]
  const P5: seq<int> := [179, 181, 191, 193, 197, 199, 211, 223]
  const P6: seq<int> := [227, 229, 233, 239, 241, 251, 257, 263]
  const P7: seq<int> := [269, 271, 277, 281, 283, 293, 307, 311]

  /** The first 64 primes. */
  const PRIMES: seq<int> := P0 + P1 + P2 + P3 + P4 + P5 + P6 + P7

  /** k is the first 32 bits of the fractional part of the cube root of p; the whole part is c. */
  predicate IsCubeRootBits(k: int, p: int, c: int) {
    0 <= k < 0x1_0000_0000 &&
    (c * 0x1_0000_0000 + k) * (c * 0x1_0000_0000 + k) * (c * 0x1_0000_0000 + k)
      <= p * 0x1_0000_0000_0000_0000_0000_0000
      < (c * 0x1_0000_0000 + k + 1) * (c * 0x1_0000_0000 + k + 1) * (c * 0x1_0000_0000 + k + 1)
  }

  predicate IsSquareRootBits(k: int, p: int, c: int) {
    0 <= k < 0x1_0000_0000 &&
    (c * 0x1_0000_0000 + k) * (c * 0x1_0000_0000 + k)
      <= p * 0x1_0000_0000_0000_0000
      < (c * 0x1_0000_0000 + k + 1) * (c * 0x1_0000_0000 + k + 1)
  }

  predicate CubeRootBits(k: int, p: int) { exists c :: 1 <= c <= 6 && IsCubeRootBits(k, p, c) }

  predicate SquareRootBits(k: int, p: int) { exists c :: 1 <= c <= 4 && IsSquareRootBits(k, p, c) }

  lemma Row0()
    ensures |K0| == |P0| == 8 && forall t :: 0 <= t < 8 ==> CubeRootBits(K0[t], P0[t])
  {
    hide CubeRootBits;
    Cube(0x428A2F98, 2, 1);
    Cube(0x71374491, 3, 1);
    Cube(0xB5C0FBCF, 5, 1);
    Cube(0xE9B5DBA5, 7, 1);
    Cube(0x3956C25B, 11, 2);
    Cube(0x59F111F1, 13, 2);
    Cube(0x923F82A4, 17, 2);
    Cube(0xAB1C5ED5, 19, 2);
  }

  lemma Row1()
    ensures |K1| == |P1| == 8 && forall t :: 0 <= t < 8 ==> CubeRootBits(K1[t], P1[t])
  {
    hide CubeRootBits;
    Cube(0xD807AA98, 23, 2);
    Cube(0x12835B01, 29, 3);
    Cube(0x243185BE, 31, 3);
    Cube(0x550C7DC3, 37, 3);
    Cube(0x72BE5D74, 41, 3);
    Cube(0x80DEB1FE, 43, 3);
    Cube(0x9BDC06A7, 47, 3);
    Cube(0xC19BF174, 53, 3);
  }

  lemma Row2()
    ensures |K2| == |P2| == 8 && forall t :: 0 <= t < 8 ==> CubeRootBits(K2[t], P2[t])
  {
    hide CubeRootBits;
    Cube(0xE49B69C1, 59, 3);
    Cube(0xEFBE4786, 61, 3);
    Cube(0x0FC19DC6, 67, 4);
    Cube(0x240CA1CC, 71, 4);
    Cube(0x2DE92C6F, 73, 4);
    Cube(0x4A7484AA, 79, 4);
    Cube(0x5CB0A9DC, 83, 4);
    Cube(0x76F988DA, 89, 4);
  }

  lemma Row3()
    ensures |K3| == |P3| == 8 && forall t :: 0 <= t < 8 ==> CubeRootBits(K3[t], P3[t])
  {
    hide CubeRootBits;
    Cube(0x983E5152, 97, 4);
    Cube(0xA831C66D, 101, 4);
    Cube(0xB00327C8, 103, 4);
    Cube(0xBF597FC7, 107, 4);
    Cube(0xC6E00BF3, 109, 4);
    Cube(0xD5A79147, 113, 4);
    Cube(0x06CA6351, 127, 5);
    Cube(0x14292967, 131, 5);
  }

  lemma Row4()
    ensures |K4| == |P4| == 8 && forall t :: 0 <= t < 8 ==> CubeRootBits(K4[t], P4[t])
  {
    hide CubeRootBits;
    Cube(0x27B70A85, 137, 5);
    Cube(0x2E1B2138, 139, 5);
    Cube(0x4D2C6DFC, 149, 5);
    Cube(0x53380D13, 151, 5);
    Cube(0x650A7354, 157, 5);
    Cube(0x766A0ABB, 163, 5);
    Cube(0x81C2C92E, 167, 5);
    Cube(0x92722C85, 173, 5);
  }

  lemma Row5()
    ensures |K5| == |P5| == 8 && forall t :: 0 <= t < 8 ==> CubeRootBits(K5[t], P5[t])
  {
    hide CubeRootBits;
    Cube(0xA2BFE8A1, 179, 5);
    Cube(0xA81A664B, 181, 5);
    Cube(0xC24B8B70, 191, 5);
    Cube(0xC76C51A3, 193, 5);
    Cube(0xD192E819, 197, 5);
    Cube(0xD6990624, 199, 5);
    Cube(0xF40E3585, 211, 5);
    Cube(0x106AA070, 223, 6);
  }

  lemma Row6()
    ensures |K6| == |P6| == 8 && forall t :: 0 <= t < 8 ==> CubeRootBits(K6[t], P6[t])
  {
    hide CubeRootBits;
    Cube(0x19A4C116, 227, 6);
    Cube(0x1E376C08, 229, 6);
    Cube(0x2748774C, 233, 6);
    Cube(0x34B0BCB5, 239, 6);
    Cube(0x391C0CB3, 241, 6);
    Cube(0x4ED8AA4A, 251, 6);
    Cube(0x5B9CCA4F, 257, 6);
    Cube(0x682E6FF3, 263, 6);
  }

  lemma Row7()
    ensures |K7| == |P7| == 8 && forall t :: 0 <= t < 8 ==> CubeRootBits(K7[t], P7[t])
  {
    hide CubeRootBits;
    Cube(0x748F82EE, 269, 6);
    Cube(0x78A5636F, 271, 6);
    Cube(0x84C87814, 277, 6);
    Cube(0x8CC70208, 281, 6);
    Cube(0x90BEFFFA, 283, 6);
    Cube(0xA4506CEB, 293, 6);
    Cube(0xBEF9A3F7, 307, 6);
    Cube(0xC67178F2, 311, 6);
  }

  lemma Cube(k: int, p: int, c: int)
    requires 1 <= c <= 6 && IsCubeRootBits(k, p, c)
    ensures CubeRootBits(k, p)
  {}

  /**
   The round constants are the cube roots of the first 64 primes, the initial hash the square roots of the first
   8.
   */
  lemma ConstantsAreRoots()
    ensures |K| == 64 && |PRIMES| == 64 && |H0| == 8
    ensures forall t :: 0 <= t < 64 ==> CubeRootBits(K[t], PRIMES[t])
    ensures forall t :: 0 <= t < 8 ==> SquareRootBits(H0[t], PRIMES[t])
  {
    hide CubeRootBits;
    Row0();
    Row1();
    Row2();
    Row3();
    Row4();
    Row5();
    Row6();
    Row7();
    Join(K0, K1, K2, K3, K4, K5, K6, K7);
    Join(P0, P1, P2, P3, P4, P5, P6, P7);
    assert IsSquareRootBits(0x6A09E667, 2, 1);
    assert IsSquareRootBits(0xBB67AE85, 3, 1);
    assert IsSquareRootBits(0x3C6EF372, 5, 2);
    assert IsSquareRootBits(0xA54FF53A, 7, 2);
    assert IsSquareRootBits(0x510E527F, 11, 3);
    assert IsSquareRootBits(0x9B05688C, 13, 3);
    assert IsSquareRootBits(0x1F83D9AB, 17, 4);
    assert IsSquareRootBits(0x5BE0CD19, 19, 4);
  }

  lemma Join(a: seq<int>, b: seq<int>, c: seq<int>, d: seq<int>, e: seq<int>, f: seq<int>, g: seq<int>, h: seq<int>)
    requires |a| == |b| == |c| == |d| == |e| == |f| == |g| == |h| == 8
    ensures var s := a + b + c + d + e + f + g + h;
      |s| == 64 && forall t :: 0 <= t < 64 ==> s[t] == [a, b, c, d, e, f, g, h][t / 8][t % 8]
  {}
}
