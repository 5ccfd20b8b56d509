/**
 The first example of FIPS 180-4 for SHA-256: the digest of "abc", worked out round by round.  It fixes every
 rotation, index, constant and byte of the definition at once.
 */
module Sha256Vector {
  import opened Options
  import opened Sha256
  import opened Sha256Constants

  // ---------- the message schedule ----------

  lemma Grown(block: seq<Word>, t: nat, two: Word, seven: Word, fifteen: Word, sixteen: Word, r: Word)
    requires |block| == 16 && 16 <= t && Schedule(block, t - 2) == two && Schedule(block, t - 7) == seven
    requires Schedule(block, t - 15) == fifteen && Schedule(block, t - 16) == sixteen
    requires Sum4(SmallSigma1(two), seven, SmallSigma0(fifteen), sixteen) == r
    ensures Schedule(block, t) == r
  {
    hide Sum4, SmallSigma0, SmallSigma1;
  }

  /** The padded message as words. */
  predicate IsAbc(block: seq<Word>) {
    && |block| == 16 && block[0] == 0x61626380 && (forall t :: 1 <= t < 15 ==> block[t] == 0) && block[15] == 24
  }

  lemma Words0(block: seq<Word>)
    requires IsAbc(block)
    ensures |block| == 16
    ensures Schedule(block, 0) == 0x61626380 && Schedule(block, 1) == 0x00000000
    ensures Schedule(block, 2) == 0x00000000 && Schedule(block, 3) == 0x00000000
    ensures Schedule(block, 4) == 0x00000000 && Schedule(block, 5) == 0x00000000
    ensures Schedule(block, 6) == 0x00000000 && Schedule(block, 7) == 0x00000000
    ensures Schedule(block, 8) == 0x00000000 && Schedule(block, 9) == 0x00000000
    ensures Schedule(block, 10) == 0x00000000 && Schedule(block, 11) == 0x00000000
    ensures Schedule(block, 12) == 0x00000000 && Schedule(block, 13) == 0x00000000
    ensures Schedule(block, 14) == 0x00000000 && Schedule(block, 15) == 0x00000018
  {}

  lemma Words1(block: seq<Word>)
    requires IsAbc(block)
    ensures |block| == 16
    ensures Schedule(block, 16) == 0x61626380 && Schedule(block, 17) == 0x000f0000
    ensures Schedule(block, 18) == 0x7da86405 && Schedule(block, 19) == 0x600003c6
    ensures Schedule(block, 20) == 0x3e9d7b78 && Schedule(block, 21) == 0x0183fc00
    ensures Schedule(block, 22) == 0x12dcbfdb && Schedule(block, 23) == 0xe2e2c38e
    ensures Schedule(block, 24) == 0xc8215c1a && Schedule(block, 25) == 0xb73679a2
    ensures Schedule(block, 26) == 0xe5bc3909 && Schedule(block, 27) == 0x32663c5b
    ensures Schedule(block, 28) == 0x9d209d67 && Schedule(block, 29) == 0xec8726cb
    ensures Schedule(block, 30) == 0x702138a4 && Schedule(block, 31) == 0xd3b7973b
  {
    hide Schedule, IsAbc;
    Words0(block);
    Grown(block, 16, 0x00000000, 0x00000000, 0x00000000, 0x61626380, 0x61626380);
    Grown(block, 17, 0x00000018, 0x00000000, 0x00000000, 0x00000000, 0x000f0000);
    Grown(block, 18, 0x61626380, 0x00000000, 0x00000000, 0x00000000, 0x7da86405);
    Grown(block, 19, 0x000f0000, 0x00000000, 0x00000000, 0x00000000, 0x600003c6);
    Grown(block, 20, 0x7da86405, 0x00000000, 0x00000000, 0x00000000, 0x3e9d7b78);
    Grown(block, 21, 0x600003c6, 0x00000000, 0x00000000, 0x00000000, 0x0183fc00);
    Grown(block, 22, 0x3e9d7b78, 0x00000018, 0x00000000, 0x00000000, 0x12dcbfdb);
    Grown(block, 23, 0x0183fc00, 0x61626380, 0x00000000, 0x00000000, 0xe2e2c38e);
    Grown(block, 24, 0x12dcbfdb, 0x000f0000, 0x00000000, 0x00000000, 0xc8215c1a);
    Grown(block, 25, 0xe2e2c38e, 0x7da86405, 0x00000000, 0x00000000, 0xb73679a2);
    Grown(block, 26, 0xc8215c1a, 0x600003c6, 0x00000000, 0x00000000, 0xe5bc3909);
    Grown(block, 27, 0xb73679a2, 0x3e9d7b78, 0x00000000, 0x00000000, 0x32663c5b);
    Grown(block, 28, 0xe5bc3909, 0x0183fc00, 0x00000000, 0x00000000, 0x9d209d67);
    Grown(block, 29, 0x32663c5b, 0x12dcbfdb, 0x00000000, 0x00000000, 0xec8726cb);
    Grown(block, 30, 0x9d209d67, 0xe2e2c38e, 0x00000018, 0x00000000, 0x702138a4);
    Grown(block, 31, 0xec8726cb, 0xc8215c1a, 0x61626380, 0x00000018, 0xd3b7973b);
  }

  lemma Words2(block: seq<Word>)
    requires IsAbc(block)
    ensures |block| == 16
    ensures Schedule(block, 32) == 0x93f5997f && Schedule(block, 33) == 0x3b68ba73
    ensures Schedule(block, 34) == 0xaff4ffc1 && Schedule(block, 35) == 0xf10a5c62
    ensures Schedule(block, 36) == 0x0a8b3996 && Schedule(block, 37) == 0x72af830a
    ensures Schedule(block, 38) == 0x9409e33e && Schedule(block, 39) == 0x24641522
    ensures Schedule(block, 40) == 0x9f47bf94 && Schedule(block, 41) == 0xf0a64f5a
    ensures Schedule(block, 42) == 0x3e246a79 && Schedule(block, 43) == 0x27333ba3
    ensures Schedule(block, 44) == 0x0c4763f2 && Schedule(block, 45) == 0x840abf27
    ensures Schedule(block, 46) == 0x7a290d5d && Schedule(block, 47) == 0x065c43da
  {
    hide Schedule, IsAbc;
    Words1(block);
    Grown(block, 32, 0x702138a4, 0xb73679a2, 0x000f0000, 0x61626380, 0x93f5997f);
    Grown(block, 33, 0xd3b7973b, 0xe5bc3909, 0x7da86405, 0x000f0000, 0x3b68ba73);
    Grown(block, 34, 0x93f5997f, 0x32663c5b, 0x600003c6, 0x7da86405, 0xaff4ffc1);
    Grown(block, 35, 0x3b68ba73, 0x9d209d67, 0x3e9d7b78, 0x600003c6, 0xf10a5c62);
    Grown(block, 36, 0xaff4ffc1, 0xec8726cb, 0x0183fc00, 0x3e9d7b78, 0x0a8b3996);
    Grown(block, 37, 0xf10a5c62, 0x702138a4, 0x12dcbfdb, 0x0183fc00, 0x72af830a);
    Grown(block, 38, 0x0a8b3996, 0xd3b7973b, 0xe2e2c38e, 0x12dcbfdb, 0x9409e33e);
    Grown(block, 39, 0x72af830a, 0x93f5997f, 0xc8215c1a, 0xe2e2c38e, 0x24641522);
    Grown(block, 40, 0x9409e33e, 0x3b68ba73, 0xb73679a2, 0xc8215c1a, 0x9f47bf94);
    Grown(block, 41, 0x24641522, 0xaff4ffc1, 0xe5bc3909, 0xb73679a2, 0xf0a64f5a);
    Grown(block, 42, 0x9f47bf94, 0xf10a5c62, 0x32663c5b, 0xe5bc3909, 0x3e246a79);
    Grown(block, 43, 0xf0a64f5a, 0x0a8b3996, 0x9d209d67, 0x32663c5b, 0x27333ba3);
    Grown(block, 44, 0x3e246a79, 0x72af830a, 0xec8726cb, 0x9d209d67, 0x0c4763f2);
    Grown(block, 45, 0x27333ba3, 0x9409e33e, 0x702138a4, 0xec8726cb, 0x840abf27);
    Grown(block, 46, 0x0c4763f2, 0x24641522, 0xd3b7973b, 0x702138a4, 0x7a290d5d);
    Grown(block, 47, 0x840abf27, 0x9f47bf94, 0x93f5997f, 0xd3b7973b, 0x065c43da);
  }

  lemma Words3(block: seq<Word>)
    requires IsAbc(block)
    ensures |block| == 16
    ensures Schedule(block, 48) == 0xfb3e89cb && Schedule(block, 49) == 0xcc7617db
    ensures Schedule(block, 50) == 0xb9e66c34 && Schedule(block, 51) == 0xa9993667
    ensures Schedule(block, 52) == 0x84badedd && Schedule(block, 53) == 0xc21462bc
    ensures Schedule(block, 54) == 0x1487472c && Schedule(block, 55) == 0xb20f7a99
    ensures Schedule(block, 56) == 0xef57b9cd && Schedule(block, 57) == 0xebe6b238
    ensures Schedule(block, 58) == 0x9fe3095e && Schedule(block, 59) == 0x78bc8d4b
    ensures Schedule(block, 60) == 0xa43fcf15 && Schedule(block, 61) == 0x668b2ff8
    ensures Schedule(block, 62) == 0xeeaba2cc && Schedule(block, 63) == 0x12b1edeb
  {
    hide Schedule, IsAbc;
    Words2(block);
    Grown(block, 48, 0x7a290d5d, 0xf0a64f5a, 0x3b68ba73, 0x93f5997f, 0xfb3e89cb);
    Grown(block, 49, 0x065c43da, 0x3e246a79, 0xaff4ffc1, 0x3b68ba73, 0xcc7617db);
    Grown(block, 50, 0xfb3e89cb, 0x27333ba3, 0xf10a5c62, 0xaff4ffc1, 0xb9e66c34);
    Grown(block, 51, 0xcc7617db, 0x0c4763f2, 0x0a8b3996, 0xf10a5c62, 0xa9993667);
    Grown(block, 52, 0xb9e66c34, 0x840abf27, 0x72af830a, 0x0a8b3996, 0x84badedd);
    Grown(block, 53, 0xa9993667, 0x7a290d5d, 0x9409e33e, 0x72af830a, 0xc21462bc);
    Grown(block, 54, 0x84badedd, 0x065c43da, 0x24641522, 0x9409e33e, 0x1487472c);
    Grown(block, 55, 0xc21462bc, 0xfb3e89cb, 0x9f47bf94, 0x24641522, 0xb20f7a99);
    Grown(block, 56, 0x1487472c, 0xcc7617db, 0xf0a64f5a, 0x9f47bf94, 0xef57b9cd);
    Grown(block, 57, 0xb20f7a99, 0xb9e66c34, 0x3e246a79, 0xf0a64f5a, 0xebe6b238);
    Grown(block, 58, 0xef57b9cd, 0xa9993667, 0x27333ba3, 0x3e246a79, 0x9fe3095e);
    Grown(block, 59, 0xebe6b238, 0x84badedd, 0x0c4763f2, 0x27333ba3, 0x78bc8d4b);
    Grown(block, 60, 0x9fe3095e, 0xc21462bc, 0x840abf27, 0x0c4763f2, 0xa43fcf15);
    Grown(block, 61, 0x78bc8d4b, 0x1487472c, 0x7a290d5d, 0x840abf27, 0x668b2ff8);
    Grown(block, 62, 0xa43fcf15, 0xb20f7a99, 0x065c43da, 0x7a290d5d, 0xeeaba2cc);
    Grown(block, 63, 0x668b2ff8, 0xef57b9cd, 0xfb3e89cb, 0x065c43da, 0x12b1edeb);
  }

  // ---------- the rounds ----------

  const START := Work(0x6a09e667, 0xbb67ae85, 0x3c6ef372, 0xa54ff53a, 0x510e527f, 0x9b05688c, 0x1f83d9ab, 0x5be0cd19)

  lemma Turned(v: Work, block: seq<Word>, t: nat, before: Work, k: int, w: Word, after: Work)
    requires |block| == 16 && t < 64 && 0 <= k < 0x1_0000_0000
    requires Rounds(v, block, t) == before && K[t] == k && Schedule(block, t) == w
    requires Round(before, ToWord(k), w) == after
    ensures Rounds(v, block, t + 1) == after
  {
    hide Round, Schedule;
  }

  lemma Row0()
    ensures |K| == 64
    ensures K[0] == 0x428a2f98 && K[1] == 0x71374491 && K[2] == 0xb5c0fbcf && K[3] == 0xe9b5dba5
    ensures K[4] == 0x3956c25b && K[5] == 0x59f111f1 && K[6] == 0x923f82a4 && K[7] == 0xab1c5ed5
  {}

  lemma Row1()
    ensures |K| == 64
    ensures K[8] == 0xd807aa98 && K[9] == 0x12835b01 && K[10] == 0x243185be && K[11] == 0x550c7dc3
    ensures K[12] == 0x72be5d74 && K[13] == 0x80deb1fe && K[14] == 0x9bdc06a7 && K[15] == 0xc19bf174
  {}

  lemma Row2()
    ensures |K| == 64
    ensures K[16] == 0xe49b69c1 && K[17] == 0xefbe4786 && K[18] == 0x0fc19dc6 && K[19] == 0x240ca1cc
    ensures K[20] == 0x2de92c6f && K[21] == 0x4a7484aa && K[22] == 0x5cb0a9dc && K[23] == 0x76f988da
  {}

  lemma Row3()
    ensures |K| == 64
    ensures K[24] == 0x983e5152 && K[25] == 0xa831c66d && K[26] == 0xb00327c8 && K[27] == 0xbf597fc7
    ensures K[28] == 0xc6e00bf3 && K[29] == 0xd5a79147 && K[30] == 0x06ca6351 && K[31] == 0x14292967
  {}

  lemma Row4()
    ensures |K| == 64
    ensures K[32] == 0x27b70a85 && K[33] == 0x2e1b2138 && K[34] == 0x4d2c6dfc && K[35] == 0x53380d13
    ensures K[36] == 0x650a7354 && K[37] == 0x766a0abb && K[38] == 0x81c2c92e && K[39] == 0x92722c85
  {}

  lemma Row5()
    ensures |K| == 64
    ensures K[40] == 0xa2bfe8a1 && K[41] == 0xa81a664b && K[42] == 0xc24b8b70 && K[43] == 0xc76c51a3
    ensures K[44] == 0xd192e819 && K[45] == 0xd6990624 && K[46] == 0xf40e3585 && K[47] == 0x106aa070
  {}

  lemma Row6()
    ensures |K| == 64
    ensures K[48] == 0x19a4c116 && K[49] == 0x1e376c08 && K[50] == 0x2748774c && K[51] == 0x34b0bcb5
    ensures K[52] == 0x391c0cb3 && K[53] == 0x4ed8aa4a && K[54] == 0x5b9cca4f && K[55] == 0x682e6ff3
  {}

  lemma Row7()
    ensures |K| == 64
    ensures K[56] == 0x748f82ee && K[57] == 0x78a5636f && K[58] == 0x84c87814 && K[59] == 0x8cc70208
    ensures K[60] == 0x90befffa && K[61] == 0xa4506ceb && K[62] == 0xbef9a3f7 && K[63] == 0xc67178f2
  {}

  lemma Rounds0(v: Work, block: seq<Word>)
    requires IsAbc(block) && v == START
    ensures Rounds(v, block, 8)
         == Work(0x85a07b5f, 0xe5030380, 0x2b4209f5, 0x04409a6a, 0x0c657a79, 0x9b27a401, 0x714260ad, 0x43ada245)
  {
    hide Rounds, Schedule, IsAbc;
    Row0();
    Words0(block);
    NoRound(v, block);
    var v0 := Work(0x6a09e667, 0xbb67ae85, 0x3c6ef372, 0xa54ff53a, 0x510e527f, 0x9b05688c, 0x1f83d9ab, 0x5be0cd19);
    var v1 := Work(0x5d6aebcd, 0x6a09e667, 0xbb67ae85, 0x3c6ef372, 0xfa2a4622, 0x510e527f, 0x9b05688c, 0x1f83d9ab);
    Turned(v, block, 0, v0, 0x428a2f98, 0x61626380, v1);
    var v2 := Work(0x5a6ad9ad, 0x5d6aebcd, 0x6a09e667, 0xbb67ae85, 0x78ce7989, 0xfa2a4622, 0x510e527f, 0x9b05688c);
    Turned(v, block, 1, v1, 0x71374491, 0x00000000, v2);
    var v3 := Work(0xc8c347a7, 0x5a6ad9ad, 0x5d6aebcd, 0x6a09e667, 0xf92939eb, 0x78ce7989, 0xfa2a4622, 0x510e527f);
    Turned(v, block, 2, v2, 0xb5c0fbcf, 0x00000000, v3);
    var v4 := Work(0xd550f666, 0xc8c347a7, 0x5a6ad9ad, 0x5d6aebcd, 0x24e00850, 0xf92939eb, 0x78ce7989, 0xfa2a4622);
    Turned(v, block, 3, v3, 0xe9b5dba5, 0x00000000, v4);
    var v5 := Work(0x04409a6a, 0xd550f666, 0xc8c347a7, 0x5a6ad9ad, 0x43ada245, 0x24e00850, 0xf92939eb, 0x78ce7989);
    Turned(v, block, 4, v4, 0x3956c25b, 0x00000000, v5);
    var v6 := Work(0x2b4209f5, 0x04409a6a, 0xd550f666, 0xc8c347a7, 0x714260ad, 0x43ada245, 0x24e00850, 0xf92939eb);
    Turned(v, block, 5, v5, 0x59f111f1, 0x00000000, v6);
    var v7 := Work(0xe5030380, 0x2b4209f5, 0x04409a6a, 0xd550f666, 0x9b27a401, 0x714260ad, 0x43ada245, 0x24e00850);
    Turned(v, block, 6, v6, 0x923f82a4, 0x00000000, v7);
    var v8 := Work(0x85a07b5f, 0xe5030380, 0x2b4209f5, 0x04409a6a, 0x0c657a79, 0x9b27a401, 0x714260ad, 0x43ada245);
    Turned(v, block, 7, v7, 0xab1c5ed5, 0x00000000, v8);
  }

  lemma Rounds1(v: Work, block: seq<Word>)
    requires IsAbc(block) && v == START
    ensures Rounds(v, block, 16)
         == Work(0xb0fa238e, 0xc0645fde, 0xd932eb16, 0x87912990, 0x07590dcd, 0x0b92f20c, 0x745a48de, 0x1e578218)
  {
    hide Rounds, Schedule, IsAbc;
    Row1();
    Words0(block);
    Rounds0(v, block);
    var v8 := Work(0x85a07b5f, 0xe5030380, 0x2b4209f5, 0x04409a6a, 0x0c657a79, 0x9b27a401, 0x714260ad, 0x43ada245);
    var v9 := Work(0x8e04ecb9, 0x85a07b5f, 0xe5030380, 0x2b4209f5, 0x32ca2d8c, 0x0c657a79, 0x9b27a401, 0x714260ad);
    Turned(v, block, 8, v8, 0xd807aa98, 0x00000000, v9);
    var v10 := Work(0x8c87346b, 0x8e04ecb9, 0x85a07b5f, 0xe5030380, 0x1cc92596, 0x32ca2d8c, 0x0c657a79, 0x9b27a401);
    Turned(v, block, 9, v9, 0x12835b01, 0x00000000, v10);
    var v11 := Work(0x4798a3f4, 0x8c87346b, 0x8e04ecb9, 0x85a07b5f, 0x436b23e8, 0x1cc92596, 0x32ca2d8c, 0x0c657a79);
    Turned(v, block, 10, v10, 0x243185be, 0x00000000, v11);
    var v12 := Work(0xf71fc5a9, 0x4798a3f4, 0x8c87346b, 0x8e04ecb9, 0x816fd6e9, 0x436b23e8, 0x1cc92596, 0x32ca2d8c);
    Turned(v, block, 11, v11, 0x550c7dc3, 0x00000000, v12);
    var v13 := Work(0x87912990, 0xf71fc5a9, 0x4798a3f4, 0x8c87346b, 0x1e578218, 0x816fd6e9, 0x436b23e8, 0x1cc92596);
    Turned(v, block, 12, v12, 0x72be5d74, 0x00000000, v13);
    var v14 := Work(0xd932eb16, 0x87912990, 0xf71fc5a9, 0x4798a3f4, 0x745a48de, 0x1e578218, 0x816fd6e9, 0x436b23e8);
    Turned(v, block, 13, v13, 0x80deb1fe, 0x00000000, v14);
    var v15 := Work(0xc0645fde, 0xd932eb16, 0x87912990, 0xf71fc5a9, 0x0b92f20c, 0x745a48de, 0x1e578218, 0x816fd6e9);
    Turned(v, block, 14, v14, 0x9bdc06a7, 0x00000000, v15);
    var v16 := Work(0xb0fa238e, 0xc0645fde, 0xd932eb16, 0x87912990, 0x07590dcd, 0x0b92f20c, 0x745a48de, 0x1e578218);
    Turned(v, block, 15, v15, 0xc19bf174, 0x00000018, v16);
  }

  lemma Rounds2(v: Work, block: seq<Word>)
    requires IsAbc(block) && v == START
    ensures Rounds(v, block, 24)
         == Work(0xc5d53d8d, 0xa7a3623f, 0xc2606d6d, 0x9dc68b63, 0xaa47c347, 0x49f5114a, 0xe1257970, 0x8ada8930)
  {
    hide Rounds, Schedule, IsAbc;
    Row2();
    Words1(block);
    Rounds1(v, block);
    var v16 := Work(0xb0fa238e, 0xc0645fde, 0xd932eb16, 0x87912990, 0x07590dcd, 0x0b92f20c, 0x745a48de, 0x1e578218);
    var v17 := Work(0x21da9a9b, 0xb0fa238e, 0xc0645fde, 0xd932eb16, 0x8034229c, 0x07590dcd, 0x0b92f20c, 0x745a48de);
    Turned(v, block, 16, v16, 0xe49b69c1, 0x61626380, v17);
    var v18 := Work(0xc2fbd9d1, 0x21da9a9b, 0xb0fa238e, 0xc0645fde, 0x846ee454, 0x8034229c, 0x07590dcd, 0x0b92f20c);
    Turned(v, block, 17, v17, 0xefbe4786, 0x000f0000, v18);
    var v19 := Work(0xfe777bbf, 0xc2fbd9d1, 0x21da9a9b, 0xb0fa238e, 0xcc899961, 0x846ee454, 0x8034229c, 0x07590dcd);
    Turned(v, block, 18, v18, 0x0fc19dc6, 0x7da86405, v19);
    var v20 := Work(0xe1f20c33, 0xfe777bbf, 0xc2fbd9d1, 0x21da9a9b, 0xb0638179, 0xcc899961, 0x846ee454, 0x8034229c);
    Turned(v, block, 19, v19, 0x240ca1cc, 0x600003c6, v20);
    var v21 := Work(0x9dc68b63, 0xe1f20c33, 0xfe777bbf, 0xc2fbd9d1, 0x8ada8930, 0xb0638179, 0xcc899961, 0x846ee454);
    Turned(v, block, 20, v20, 0x2de92c6f, 0x3e9d7b78, v21);
    var v22 := Work(0xc2606d6d, 0x9dc68b63, 0xe1f20c33, 0xfe777bbf, 0xe1257970, 0x8ada8930, 0xb0638179, 0xcc899961);
    Turned(v, block, 21, v21, 0x4a7484aa, 0x0183fc00, v22);
    var v23 := Work(0xa7a3623f, 0xc2606d6d, 0x9dc68b63, 0xe1f20c33, 0x49f5114a, 0xe1257970, 0x8ada8930, 0xb0638179);
    Turned(v, block, 22, v22, 0x5cb0a9dc, 0x12dcbfdb, v23);
    var v24 := Work(0xc5d53d8d, 0xa7a3623f, 0xc2606d6d, 0x9dc68b63, 0xaa47c347, 0x49f5114a, 0xe1257970, 0x8ada8930);
    Turned(v, block, 23, v23, 0x76f988da, 0xe2e2c38e, v24);
  }

  lemma Rounds3(v: Work, block: seq<Word>)
    requires IsAbc(block) && v == START
    ensures Rounds(v, block, 32)
         == Work(0x73b33bf5, 0xea992a22, 0xa0060b30, 0x363482c9, 0xba591112, 0x0109ab3a, 0xade79437, 0x6112a3b7)
  {
    hide Rounds, Schedule, IsAbc;
    Row3();
    Words1(block);
    Rounds2(v, block);
    var v24 := Work(0xc5d53d8d, 0xa7a3623f, 0xc2606d6d, 0x9dc68b63, 0xaa47c347, 0x49f5114a, 0xe1257970, 0x8ada8930);
    var v25 := Work(0x1c2c2838, 0xc5d53d8d, 0xa7a3623f, 0xc2606d6d, 0x2823ef91, 0xaa47c347, 0x49f5114a, 0xe1257970);
    Turned(v, block, 24, v24, 0x983e5152, 0xc8215c1a, v25);
    var v26 := Work(0xcde8037d, 0x1c2c2838, 0xc5d53d8d, 0xa7a3623f, 0x14383d8e, 0x2823ef91, 0xaa47c347, 0x49f5114a);
    Turned(v, block, 25, v25, 0xa831c66d, 0xb73679a2, v26);
    var v27 := Work(0xb62ec4bc, 0xcde8037d, 0x1c2c2838, 0xc5d53d8d, 0xc74c6516, 0x14383d8e, 0x2823ef91, 0xaa47c347);
    Turned(v, block, 26, v26, 0xb00327c8, 0xe5bc3909, v27);
    var v28 := Work(0x77d37528, 0xb62ec4bc, 0xcde8037d, 0x1c2c2838, 0xedffbff8, 0xc74c6516, 0x14383d8e, 0x2823ef91);
    Turned(v, block, 27, v27, 0xbf597fc7, 0x32663c5b, v28);
    var v29 := Work(0x363482c9, 0x77d37528, 0xb62ec4bc, 0xcde8037d, 0x6112a3b7, 0xedffbff8, 0xc74c6516, 0x14383d8e);
    Turned(v, block, 28, v28, 0xc6e00bf3, 0x9d209d67, v29);
    var v30 := Work(0xa0060b30, 0x363482c9, 0x77d37528, 0xb62ec4bc, 0xade79437, 0x6112a3b7, 0xedffbff8, 0xc74c6516);
    Turned(v, block, 29, v29, 0xd5a79147, 0xec8726cb, v30);
    var v31 := Work(0xea992a22, 0xa0060b30, 0x363482c9, 0x77d37528, 0x0109ab3a, 0xade79437, 0x6112a3b7, 0xedffbff8);
    Turned(v, block, 30, v30, 0x06ca6351, 0x702138a4, v31);
    var v32 := Work(0x73b33bf5, 0xea992a22, 0xa0060b30, 0x363482c9, 0xba591112, 0x0109ab3a, 0xade79437, 0x6112a3b7);
    Turned(v, block, 31, v31, 0x14292967, 0xd3b7973b, v32);
  }

  lemma Rounds4(v: Work, block: seq<Word>)
    requires IsAbc(block) && v == START
    ensures Rounds(v, block, 40)
         == Work(0x79ea687a, 0x6dc57a8a, 0x34df1604, 0x41a65cb1, 0x1efbc0a0, 0xf0781bc8, 0xa507a53d, 0x0772a26b)
  {
    hide Rounds, Schedule, IsAbc;
    Row4();
    Words2(block);
    Rounds3(v, block);
    var v32 := Work(0x73b33bf5, 0xea992a22, 0xa0060b30, 0x363482c9, 0xba591112, 0x0109ab3a, 0xade79437, 0x6112a3b7);
    var v33 := Work(0x98e12507, 0x73b33bf5, 0xea992a22, 0xa0060b30, 0x9cd9f5f6, 0xba591112, 0x0109ab3a, 0xade79437);
    Turned(v, block, 32, v32, 0x27b70a85, 0x93f5997f, v33);
    var v34 := Work(0xfe604df5, 0x98e12507, 0x73b33bf5, 0xea992a22, 0x59249dd3, 0x9cd9f5f6, 0xba591112, 0x0109ab3a);
    Turned(v, block, 33, v33, 0x2e1b2138, 0x3b68ba73, v34);
    var v35 := Work(0xa9a7738c, 0xfe604df5, 0x98e12507, 0x73b33bf5, 0x085f3833, 0x59249dd3, 0x9cd9f5f6, 0xba591112);
    Turned(v, block, 34, v34, 0x4d2c6dfc, 0xaff4ffc1, v35);
    var v36 := Work(0x65a0cfe4, 0xa9a7738c, 0xfe604df5, 0x98e12507, 0xf4b002d6, 0x085f3833, 0x59249dd3, 0x9cd9f5f6);
    Turned(v, block, 35, v35, 0x53380d13, 0xf10a5c62, v36);
    var v37 := Work(0x41a65cb1, 0x65a0cfe4, 0xa9a7738c, 0xfe604df5, 0x0772a26b, 0xf4b002d6, 0x085f3833, 0x59249dd3);
    Turned(v, block, 36, v36, 0x650a7354, 0x0a8b3996, v37);
    var v38 := Work(0x34df1604, 0x41a65cb1, 0x65a0cfe4, 0xa9a7738c, 0xa507a53d, 0x0772a26b, 0xf4b002d6, 0x085f3833);
    Turned(v, block, 37, v37, 0x766a0abb, 0x72af830a, v38);
    var v39 := Work(0x6dc57a8a, 0x34df1604, 0x41a65cb1, 0x65a0cfe4, 0xf0781bc8, 0xa507a53d, 0x0772a26b, 0xf4b002d6);
    Turned(v, block, 38, v38, 0x81c2c92e, 0x9409e33e, v39);
    var v40 := Work(0x79ea687a, 0x6dc57a8a, 0x34df1604, 0x41a65cb1, 0x1efbc0a0, 0xf0781bc8, 0xa507a53d, 0x0772a26b);
    Turned(v, block, 39, v39, 0x92722c85, 0x24641522, v40);
  }

  lemma Rounds5(v: Work, block: seq<Word>)
    requires IsAbc(block) && v == START
    ensures Rounds(v, block, 48)
         == Work(0x4172328d, 0xa14c14b0, 0x72ab4b91, 0x26628815, 0xfecf0bc6, 0xd57b94a9, 0xb7755da1, 0xa80f11f0)
  {
    hide Rounds, Schedule, IsAbc;
    Row5();
    Words2(block);
    Rounds4(v, block);
    var v40 := Work(0x79ea687a, 0x6dc57a8a, 0x34df1604, 0x41a65cb1, 0x1efbc0a0, 0xf0781bc8, 0xa507a53d, 0x0772a26b);
    var v41 := Work(0xd6670766, 0x79ea687a, 0x6dc57a8a, 0x34df1604, 0x26352d63, 0x1efbc0a0, 0xf0781bc8, 0xa507a53d);
    Turned(v, block, 40, v40, 0xa2bfe8a1, 0x9f47bf94, v41);
    var v42 := Work(0xdf46652f, 0xd6670766, 0x79ea687a, 0x6dc57a8a, 0x838b2711, 0x26352d63, 0x1efbc0a0, 0xf0781bc8);
    Turned(v, block, 41, v41, 0xa81a664b, 0xf0a64f5a, v42);
    var v43 := Work(0x17aa0dfe, 0xdf46652f, 0xd6670766, 0x79ea687a, 0xdecd4715, 0x838b2711, 0x26352d63, 0x1efbc0a0);
    Turned(v, block, 42, v42, 0xc24b8b70, 0x3e246a79, v43);
    var v44 := Work(0x9d4baf93, 0x17aa0dfe, 0xdf46652f, 0xd6670766, 0xfda24c2e, 0xdecd4715, 0x838b2711, 0x26352d63);
    Turned(v, block, 43, v43, 0xc76c51a3, 0x27333ba3, v44);
    var v45 := Work(0x26628815, 0x9d4baf93, 0x17aa0dfe, 0xdf46652f, 0xa80f11f0, 0xfda24c2e, 0xdecd4715, 0x838b2711);
    Turned(v, block, 44, v44, 0xd192e819, 0x0c4763f2, v45);
    var v46 := Work(0x72ab4b91, 0x26628815, 0x9d4baf93, 0x17aa0dfe, 0xb7755da1, 0xa80f11f0, 0xfda24c2e, 0xdecd4715);
    Turned(v, block, 45, v45, 0xd6990624, 0x840abf27, v46);
    var v47 := Work(0xa14c14b0, 0x72ab4b91, 0x26628815, 0x9d4baf93, 0xd57b94a9, 0xb7755da1, 0xa80f11f0, 0xfda24c2e);
    Turned(v, block, 46, v46, 0xf40e3585, 0x7a290d5d, v47);
    var v48 := Work(0x4172328d, 0xa14c14b0, 0x72ab4b91, 0x26628815, 0xfecf0bc6, 0xd57b94a9, 0xb7755da1, 0xa80f11f0);
    Turned(v, block, 47, v47, 0x106aa070, 0x065c43da, v48);
  }

  lemma Rounds6(v: Work, block: seq<Word>)
    requires IsAbc(block) && v == START
    ensures Rounds(v, block, 56)
         == Work(0x38cc9913, 0x3ec45cdb, 0xf5702fdb, 0x101fd28f, 0x54cb266b, 0xe50e1b4f, 0x9f4787c3, 0x529e7d00)
  {
    hide Rounds, Schedule, IsAbc;
    Row6();
    Words3(block);
    Rounds5(v, block);
    var v48 := Work(0x4172328d, 0xa14c14b0, 0x72ab4b91, 0x26628815, 0xfecf0bc6, 0xd57b94a9, 0xb7755da1, 0xa80f11f0);
    var v49 := Work(0x05757ceb, 0x4172328d, 0xa14c14b0, 0x72ab4b91, 0xbd714038, 0xfecf0bc6, 0xd57b94a9, 0xb7755da1);
    Turned(v, block, 48, v48, 0x19a4c116, 0xfb3e89cb, v49);
    var v50 := Work(0xf11bfaa8, 0x05757ceb, 0x4172328d, 0xa14c14b0, 0x6e5c390c, 0xbd714038, 0xfecf0bc6, 0xd57b94a9);
    Turned(v, block, 49, v49, 0x1e376c08, 0xcc7617db, v50);
    var v51 := Work(0x7a0508a1, 0xf11bfaa8, 0x05757ceb, 0x4172328d, 0x52f1ccf7, 0x6e5c390c, 0xbd714038, 0xfecf0bc6);
    Turned(v, block, 50, v50, 0x2748774c, 0xb9e66c34, v51);
    var v52 := Work(0x886e7a22, 0x7a0508a1, 0xf11bfaa8, 0x05757ceb, 0x49231c1e, 0x52f1ccf7, 0x6e5c390c, 0xbd714038);
    Turned(v, block, 51, v51, 0x34b0bcb5, 0xa9993667, v52);
    var v53 := Work(0x101fd28f, 0x886e7a22, 0x7a0508a1, 0xf11bfaa8, 0x529e7d00, 0x49231c1e, 0x52f1ccf7, 0x6e5c390c);
    Turned(v, block, 52, v52, 0x391c0cb3, 0x84badedd, v53);
    var v54 := Work(0xf5702fdb, 0x101fd28f, 0x886e7a22, 0x7a0508a1, 0x9f4787c3, 0x529e7d00, 0x49231c1e, 0x52f1ccf7);
    Turned(v, block, 53, v53, 0x4ed8aa4a, 0xc21462bc, v54);
    var v55 := Work(0x3ec45cdb, 0xf5702fdb, 0x101fd28f, 0x886e7a22, 0xe50e1b4f, 0x9f4787c3, 0x529e7d00, 0x49231c1e);
    Turned(v, block, 54, v54, 0x5b9cca4f, 0x1487472c, v55);
    var v56 := Work(0x38cc9913, 0x3ec45cdb, 0xf5702fdb, 0x101fd28f, 0x54cb266b, 0xe50e1b4f, 0x9f4787c3, 0x529e7d00);
    Turned(v, block, 55, v55, 0x682e6ff3, 0xb20f7a99, v56);
  }

  lemma Rounds7(v: Work, block: seq<Word>)
    requires IsAbc(block) && v == START
    ensures Rounds(v, block, 64)
         == Work(0x506e3058, 0xd39a2165, 0x04d24d6c, 0xb85e2ce9, 0x5ef50f24, 0xfb121210, 0x948d25b6, 0x961f4894)
  {
    hide Rounds, Schedule, IsAbc;
    Row7();
    Words3(block);
    Rounds6(v, block);
    var v56 := Work(0x38cc9913, 0x3ec45cdb, 0xf5702fdb, 0x101fd28f, 0x54cb266b, 0xe50e1b4f, 0x9f4787c3, 0x529e7d00);
    var v57 := Work(0xfcd1887b, 0x38cc9913, 0x3ec45cdb, 0xf5702fdb, 0x9b5e906c, 0x54cb266b, 0xe50e1b4f, 0x9f4787c3);
    Turned(v, block, 56, v56, 0x748f82ee, 0xef57b9cd, v57);
    var v58 := Work(0xc062d46f, 0xfcd1887b, 0x38cc9913, 0x3ec45cdb, 0x7e44008e, 0x9b5e906c, 0x54cb266b, 0xe50e1b4f);
    Turned(v, block, 57, v57, 0x78a5636f, 0xebe6b238, v58);
    var v59 := Work(0xffb70472, 0xc062d46f, 0xfcd1887b, 0x38cc9913, 0x6d83bfc6, 0x7e44008e, 0x9b5e906c, 0x54cb266b);
    Turned(v, block, 58, v58, 0x84c87814, 0x9fe3095e, v59);
    var v60 := Work(0xb6ae8fff, 0xffb70472, 0xc062d46f, 0xfcd1887b, 0xb21bad3d, 0x6d83bfc6, 0x7e44008e, 0x9b5e906c);
    Turned(v, block, 59, v59, 0x8cc70208, 0x78bc8d4b, v60);
    var v61 := Work(0xb85e2ce9, 0xb6ae8fff, 0xffb70472, 0xc062d46f, 0x961f4894, 0xb21bad3d, 0x6d83bfc6, 0x7e44008e);
    Turned(v, block, 60, v60, 0x90befffa, 0xa43fcf15, v61);
    var v62 := Work(0x04d24d6c, 0xb85e2ce9, 0xb6ae8fff, 0xffb70472, 0x948d25b6, 0x961f4894, 0xb21bad3d, 0x6d83bfc6);
    Turned(v, block, 61, v61, 0xa4506ceb, 0x668b2ff8, v62);
    var v63 := Work(0xd39a2165, 0x04d24d6c, 0xb85e2ce9, 0xb6ae8fff, 0xfb121210, 0x948d25b6, 0x961f4894, 0xb21bad3d);
    Turned(v, block, 62, v62, 0xbef9a3f7, 0xeeaba2cc, v63);
    var v64 := Work(0x506e3058, 0xd39a2165, 0x04d24d6c, 0xb85e2ce9, 0x5ef50f24, 0xfb121210, 0x948d25b6, 0x961f4894);
    Turned(v, block, 63, v63, 0xc67178f2, 0x12b1edeb, v64);
  }

  lemma NoRound(v: Work, block: seq<Word>)
    requires |block| == 16
    ensures Rounds(v, block, 0) == v
  {}

  // ---------- the digest ----------

  lemma Compressed(block: seq<Word>)
    requires IsAbc(block)
    ensures Compress(InitialHash(), block)
         == Work(0xba7816bf, 0x8f01cfea, 0x414140de, 0x5dae2223, 0xb00361a3, 0x96177a9c, 0xb410ff61, 0xf20015ad)
  {
    hide Rounds;
    StartIs();
    Rounds7(InitialHash(), block);
  }

  lemma StartIs()
    ensures InitialHash() == START
  {
    hide ToWord;
    H0Row();
    AsWords();
  }

  lemma H0Row()
    ensures |H0| == 8 && H0[0] == 0x6a09e667 && H0[1] == 0xbb67ae85 && H0[2] == 0x3c6ef372 && H0[3] == 0xa54ff53a
    ensures H0[4] == 0x510e527f && H0[5] == 0x9b05688c && H0[6] == 0x1f83d9ab && H0[7] == 0x5be0cd19
  {}

  lemma AsWords()
    ensures ToWord(0x6a09e667) == 0x6a09e667 && ToWord(0xbb67ae85) == 0xbb67ae85 && ToWord(0x3c6ef372) == 0x3c6ef372
    ensures ToWord(0xa54ff53a) == 0xa54ff53a
    ensures ToWord(0x510e527f) == 0x510e527f && ToWord(0x9b05688c) == 0x9b05688c && ToWord(0x1f83d9ab) == 0x1f83d9ab
    ensures ToWord(0x5be0cd19) == 0x5be0cd19
  {}

  lemma PaddedAbc(m: seq<Byte>)
    requires m == Padded([0x61, 0x62, 0x63])
    ensures |m| == 64 && m[0] == 0x61 && m[1] == 0x62 && m[2] == 0x63 && m[3] == 0x80
    ensures (forall i :: 4 <= i < 63 ==> m[i] == 0) && m[63] == 24
  {
    LastByte();
    var tail := BigEndian(24, 8);
    assert ZeroCount(3) == 52;
    assert m == [0x61, 0x62, 0x63] + [0x80] + Zeros(52) + tail;
    forall i | 4 <= i < 63 ensures m[i] == 0 {
      if i >= 56 { assert m[i] == tail[i - 56]; }
    }
  }

  lemma LastByte()
    ensures var b := BigEndian(24, 8); b[7] == 24 && forall i :: 0 <= i < 7 ==> b[i] == 0
  {
    NoBytes(7);
    assert BigEndian(24, 8) == BigEndian(0, 7) + [24];
  }

  lemma {:induction false} NoBytes(width: nat)
    ensures forall i :: 0 <= i < width ==> BigEndian(0, width)[i] == 0
  {
    if width > 0 { NoBytes(width - 1); }
  }

  lemma BlockOfAbc(m: seq<Byte>)
    requires |m| == 64 && m[0] == 0x61 && m[1] == 0x62 && m[2] == 0x63 && m[3] == 0x80
    requires (forall i :: 4 <= i < 63 ==> m[i] == 0) && m[63] == 24
    ensures IsAbc(BlockAt(m, 0))
  {
    hide BigEndianWord;
    var block := BlockAt(m, 0);
    assert m[0..4] == [0x61, 0x62, 0x63, 0x80] && m[60..64] == [0, 0, 0, 24];
    ThreeWords();
    forall t | 1 <= t < 15 ensures block[t] == 0 {
      assert m[0 + 4 * t..0 + 4 * t + 4] == [0, 0, 0, 0];
    }
    assert m[0 + 4 * 0..0 + 4 * 0 + 4] == m[0..4] && m[0 + 4 * 15..0 + 4 * 15 + 4] == m[60..64];
  }

  lemma ThreeWords()
    ensures BigEndianWord([0x61, 0x62, 0x63, 0x80]) == 0x61626380
    ensures BigEndianWord([0, 0, 0, 0]) == 0 && BigEndianWord([0, 0, 0, 24]) == 24
  {}

  /** Eight digits, most significant first. */
  lemma HexOf(n: nat, a: nat, b: nat, c: nat, d: nat, e: nat, f: nat, g: nat, h: nat)
    requires a < 16 && b < 16 && c < 16 && d < 16 && e < 16 && f < 16 && g < 16 && h < 16
    requires n == (((((((a * 16 + b) * 16 + c) * 16 + d) * 16 + e) * 16 + f) * 16 + g) * 16 + h)
    ensures Hex(n, 8) == [HexDigit(a), HexDigit(b), HexDigit(c), HexDigit(d), HexDigit(e), HexDigit(f), HexDigit(g),
                          HexDigit(h)]
  {
    hide HexDigit, Hex;
    NoDigit();
    var n7 := ((((((a * 16 + b) * 16 + c) * 16 + d) * 16 + e) * 16 + f) * 16 + g);
    var n6 := (((((a * 16 + b) * 16 + c) * 16 + d) * 16 + e) * 16 + f);
    var n5 := ((((a * 16 + b) * 16 + c) * 16 + d) * 16 + e);
    var n4 := (((a * 16 + b) * 16 + c) * 16 + d);
    OneDigit(n7, h, 8);
    OneDigit(n6, g, 7);
    OneDigit(n5, f, 6);
    OneDigit(n4, e, 5);
    OneDigit((a * 16 + b) * 16 + c, d, 4);
    OneDigit(a * 16 + b, c, 3);
    OneDigit(a, b, 2);
    OneDigit(0, a, 1);
  }

  lemma NoDigit()
    ensures Hex(0, 0) == ""
  {}

  lemma OneDigit(rest: nat, digit: nat, width: nat)
    requires digit < 16 && width > 0
    ensures Hex(rest * 16 + digit, width) == Hex(rest, width - 1) + [HexDigit(digit)]
  {
    hide HexDigit;
    assert (rest * 16 + digit) / 16 == rest && (rest * 16 + digit) % 16 == digit;
  }

  lemma Hex0()
    ensures Hex(0xba7816bf as bv32 as nat, 8) == "ba7816bf"
  {
    assert 0xba7816bf as bv32 as nat == 0xba7816bf;
    HexOf(0xba7816bf, 11, 10, 7, 8, 1, 6, 11, 15);
  }

  lemma Hex1()
    ensures Hex(0x8f01cfea as bv32 as nat, 8) == "8f01cfea"
  {
    assert 0x8f01cfea as bv32 as nat == 0x8f01cfea;
    HexOf(0x8f01cfea, 8, 15, 0, 1, 12, 15, 14, 10);
  }

  lemma Hex2()
    ensures Hex(0x414140de as bv32 as nat, 8) == "414140de"
  {
    assert 0x414140de as bv32 as nat == 0x414140de;
    HexOf(0x414140de, 4, 1, 4, 1, 4, 0, 13, 14);
  }

  lemma Hex3()
    ensures Hex(0x5dae2223 as bv32 as nat, 8) == "5dae2223"
  {
    assert 0x5dae2223 as bv32 as nat == 0x5dae2223;
    HexOf(0x5dae2223, 5, 13, 10, 14, 2, 2, 2, 3);
  }

  lemma Hex4()
    ensures Hex(0xb00361a3 as bv32 as nat, 8) == "b00361a3"
  {
    assert 0xb00361a3 as bv32 as nat == 0xb00361a3;
    HexOf(0xb00361a3, 11, 0, 0, 3, 6, 1, 10, 3);
  }

  lemma Hex5()
    ensures Hex(0x96177a9c as bv32 as nat, 8) == "96177a9c"
  {
    assert 0x96177a9c as bv32 as nat == 0x96177a9c;
    HexOf(0x96177a9c, 9, 6, 1, 7, 7, 10, 9, 12);
  }

  lemma Hex6()
    ensures Hex(0xb410ff61 as bv32 as nat, 8) == "b410ff61"
  {
    assert 0xb410ff61 as bv32 as nat == 0xb410ff61;
    HexOf(0xb410ff61, 11, 4, 1, 0, 15, 15, 6, 1);
  }

  lemma Hex7()
    ensures Hex(0xf20015ad as bv32 as nat, 8) == "f20015ad"
  {
    assert 0xf20015ad as bv32 as nat == 0xf20015ad;
    HexOf(0xf20015ad, 15, 2, 0, 0, 1, 5, 10, 13);
  }

  /** The digest of "abc" is that of the standard. */
  lemma DigestOfAbc()
    ensures Digest([0x61, 0x62, 0x63]) == Some("ba7816bf" + "8f01cfea" + "414140de" + "5dae2223"
                                               + "b00361a3" + "96177a9c" + "b410ff61" + "f20015ad")
  {
    hide Compress, Hex, BlockAt, Padded, InitialHash, IsAbc;
    var m := Padded([0x61, 0x62, 0x63]);
    PaddedAbc(m);
    BlockOfAbc(m);
    Compressed(BlockAt(m, 0));
    assert HashAfter(m, 1) == Compress(InitialHash(), BlockAt(m, 0)) by { OneBlock(m); }
    Hex0(); Hex1(); Hex2(); Hex3(); Hex4(); Hex5(); Hex6(); Hex7();
  }

  lemma OneBlock(m: seq<Byte>)
    requires |m| == 64
    ensures HashAfter(m, 1) == Compress(InitialHash(), BlockAt(m, 0))
  {
    hide Compress, BlockAt, InitialHash;
    assert HashAfter(m, 0) == InitialHash();
  }

  /** A further block is worked into the digest of those before it. */
  lemma {:induction false} OneMoreBlock(message: seq<Byte>, more: seq<Byte>, n: nat)
    requires |message| == 64 * n && |more| == 64
    ensures HashAfter(message + more, n + 1) == Compress(HashAfter(message, n), BlockAt(more, 0))
  {
    hide Compress, BlockAt;
    SameBefore(message, more, n);
    assert (message + more)[64 * n..64 * n + 64] == more[0..0 + 64];
    SameBlock(message + more, 64 * n, more, 0);
  }

  lemma SameBlock(a: seq<Byte>, at: nat, b: seq<Byte>, o: nat)
    requires at + 64 <= |a| && o + 64 <= |b| && a[at..at + 64] == b[o..o + 64]
    ensures BlockAt(a, at) == BlockAt(b, o)
  {
    hide BigEndianWord;
    forall i | 0 <= i < 16 ensures a[at + 4 * i..at + 4 * i + 4] == b[o + 4 * i..o + 4 * i + 4] {
      FourOf(a, at, 4 * i);
      FourOf(b, o, 4 * i);
    }
  }

  lemma FourOf(s: seq<Byte>, o: nat, i: nat)
    requires o + 64 <= |s| && i + 4 <= 64
    ensures s[o + i..o + i + 4] == s[o..o + 64][i..i + 4]
  {
    var x, y := s[o + i..o + i + 4], s[o..o + 64][i..i + 4];
    assert forall k :: 0 <= k < 4 ==> x[k] == y[k];
  }

  lemma {:induction false} SameBefore(message: seq<Byte>, more: seq<Byte>, n: nat)
    requires 64 * n <= |message|
    ensures HashAfter(message + more, n) == HashAfter(message, n)
  {
    hide Compress, BlockAt;
    if n > 0 {
      SameBefore(message, more, n - 1);
      var o := 64 * (n - 1);
      assert (message + more)[o..o + 64] == message[o..o + 64];
      SameBlock(message + more, o, message, o);
    }
  }
}
