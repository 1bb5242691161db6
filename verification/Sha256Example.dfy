/** The published example of the standard: every word of the schedule and every round for the three
    bytes of "abc", and the digest that tests/unit/test_sha256.cpp expects. */
module Sha256Example {
  import opened Fips180
  import opened Sha256

  // The words of the schedule, eight at a time.
  ghost predicate Words0(w: seq<Word>) {
    |w| == 64 &&
    w[0] == 0x61626380 && w[1] == 0x00000000 && w[2] == 0x00000000 && w[3] == 0x00000000 &&
    w[4] == 0x00000000 && w[5] == 0x00000000 && w[6] == 0x00000000 && w[7] == 0x00000000
  }

  ghost predicate Words1(w: seq<Word>) {
    |w| == 64 &&
    w[8] == 0x00000000 && w[9] == 0x00000000 && w[10] == 0x00000000 && w[11] == 0x00000000 &&
    w[12] == 0x00000000 && w[13] == 0x00000000 && w[14] == 0x00000000 && w[15] == 0x00000018
  }

  ghost predicate Words2(w: seq<Word>) {
    |w| == 64 &&
    w[16] == 0x61626380 && w[17] == 0x000f0000 && w[18] == 0x7da86405 && w[19] == 0x600003c6 &&
    w[20] == 0x3e9d7b78 && w[21] == 0x0183fc00 && w[22] == 0x12dcbfdb && w[23] == 0xe2e2c38e
  }

  ghost predicate Words3(w: seq<Word>) {
    |w| == 64 &&
    w[24] == 0xc8215c1a && w[25] == 0xb73679a2 && w[26] == 0xe5bc3909 && w[27] == 0x32663c5b &&
    w[28] == 0x9d209d67 && w[29] == 0xec8726cb && w[30] == 0x702138a4 && w[31] == 0xd3b7973b
  }

  ghost predicate Words4(w: seq<Word>) {
    |w| == 64 &&
    w[32] == 0x93f5997f && w[33] == 0x3b68ba73 && w[34] == 0xaff4ffc1 && w[35] == 0xf10a5c62 &&
    w[36] == 0x0a8b3996 && w[37] == 0x72af830a && w[38] == 0x9409e33e && w[39] == 0x24641522
  }

  ghost predicate Words5(w: seq<Word>) {
    |w| == 64 &&
    w[40] == 0x9f47bf94 && w[41] == 0xf0a64f5a && w[42] == 0x3e246a79 && w[43] == 0x27333ba3 &&
    w[44] == 0x0c4763f2 && w[45] == 0x840abf27 && w[46] == 0x7a290d5d && w[47] == 0x065c43da
  }

  ghost predicate Words6(w: seq<Word>) {
    |w| == 64 &&
    w[48] == 0xfb3e89cb && w[49] == 0xcc7617db && w[50] == 0xb9e66c34 && w[51] == 0xa9993667 &&
    w[52] == 0x84badedd && w[53] == 0xc21462bc && w[54] == 0x1487472c && w[55] == 0xb20f7a99
  }

  ghost predicate Words7(w: seq<Word>) {
    |w| == 64 &&
    w[56] == 0xef57b9cd && w[57] == 0xebe6b238 && w[58] == 0x9fe3095e && w[59] == 0x78bc8d4b &&
    w[60] == 0xa43fcf15 && w[61] == 0x668b2ff8 && w[62] == 0xeeaba2cc && w[63] == 0x12b1edeb
  }

  // The round constants in the same way.
  ghost predicate Keys0(k: seq<Word>) {
    |k| == 64 &&
    k[0] == 0x428a2f98 && k[1] == 0x71374491 && k[2] == 0xb5c0fbcf && k[3] == 0xe9b5dba5 &&
    k[4] == 0x3956c25b && k[5] == 0x59f111f1 && k[6] == 0x923f82a4 && k[7] == 0xab1c5ed5
  }

  ghost predicate Keys1(k: seq<Word>) {
    |k| == 64 &&
    k[8] == 0xd807aa98 && k[9] == 0x12835b01 && k[10] == 0x243185be && k[11] == 0x550c7dc3 &&
    k[12] == 0x72be5d74 && k[13] == 0x80deb1fe && k[14] == 0x9bdc06a7 && k[15] == 0xc19bf174
  }

  ghost predicate Keys2(k: seq<Word>) {
    |k| == 64 &&
    k[16] == 0xe49b69c1 && k[17] == 0xefbe4786 && k[18] == 0x0fc19dc6 && k[19] == 0x240ca1cc &&
    k[20] == 0x2de92c6f && k[21] == 0x4a7484aa && k[22] == 0x5cb0a9dc && k[23] == 0x76f988da
  }

  ghost predicate Keys3(k: seq<Word>) {
    |k| == 64 &&
    k[24] == 0x983e5152 && k[25] == 0xa831c66d && k[26] == 0xb00327c8 && k[27] == 0xbf597fc7 &&
    k[28] == 0xc6e00bf3 && k[29] == 0xd5a79147 && k[30] == 0x06ca6351 && k[31] == 0x14292967
  }

  ghost predicate Keys4(k: seq<Word>) {
    |k| == 64 &&
    k[32] == 0x27b70a85 && k[33] == 0x2e1b2138 && k[34] == 0x4d2c6dfc && k[35] == 0x53380d13 &&
    k[36] == 0x650a7354 && k[37] == 0x766a0abb && k[38] == 0x81c2c92e && k[39] == 0x92722c85
  }

  ghost predicate Keys5(k: seq<Word>) {
    |k| == 64 &&
    k[40] == 0xa2bfe8a1 && k[41] == 0xa81a664b && k[42] == 0xc24b8b70 && k[43] == 0xc76c51a3 &&
    k[44] == 0xd192e819 && k[45] == 0xd6990624 && k[46] == 0xf40e3585 && k[47] == 0x106aa070
  }

  ghost predicate Keys6(k: seq<Word>) {
    |k| == 64 &&
    k[48] == 0x19a4c116 && k[49] == 0x1e376c08 && k[50] == 0x2748774c && k[51] == 0x34b0bcb5 &&
    k[52] == 0x391c0cb3 && k[53] == 0x4ed8aa4a && k[54] == 0x5b9cca4f && k[55] == 0x682e6ff3
  }

  ghost predicate Keys7(k: seq<Word>) {
    |k| == 64 &&
    k[56] == 0x748f82ee && k[57] == 0x78a5636f && k[58] == 0x84c87814 && k[59] == 0x8cc70208 &&
    k[60] == 0x90befffa && k[61] == 0xa4506ceb && k[62] == 0xbef9a3f7 && k[63] == 0xc67178f2
  }

  // The working variables before the first and after each eighth round.
  const V0 := Working(0x6a09e667, 0xbb67ae85, 0x3c6ef372, 0xa54ff53a,
      0x510e527f, 0x9b05688c, 0x1f83d9ab, 0x5be0cd19)
  const V8 := Working(0x85a07b5f, 0xe5030380, 0x2b4209f5, 0x04409a6a,
      0x0c657a79, 0x9b27a401, 0x714260ad, 0x43ada245)
  const V16 := Working(0xb0fa238e, 0xc0645fde, 0xd932eb16, 0x87912990,
      0x07590dcd, 0x0b92f20c, 0x745a48de, 0x1e578218)
  const V24 := Working(0xc5d53d8d, 0xa7a3623f, 0xc2606d6d, 0x9dc68b63,
      0xaa47c347, 0x49f5114a, 0xe1257970, 0x8ada8930)
  const V32 := Working(0x73b33bf5, 0xea992a22, 0xa0060b30, 0x363482c9,
      0xba591112, 0x0109ab3a, 0xade79437, 0x6112a3b7)
  const V40 := Working(0x79ea687a, 0x6dc57a8a, 0x34df1604, 0x41a65cb1,
      0x1efbc0a0, 0xf0781bc8, 0xa507a53d, 0x0772a26b)
  const V48 := Working(0x4172328d, 0xa14c14b0, 0x72ab4b91, 0x26628815,
      0xfecf0bc6, 0xd57b94a9, 0xb7755da1, 0xa80f11f0)
  const V56 := Working(0x38cc9913, 0x3ec45cdb, 0xf5702fdb, 0x101fd28f,
      0x54cb266b, 0xe50e1b4f, 0x9f4787c3, 0x529e7d00)
  const V64 := Working(0x506e3058, 0xd39a2165, 0x04d24d6c, 0xb85e2ce9,
      0x5ef50f24, 0xfb121210, 0x948d25b6, 0x961f4894)

  lemma KeyRow0()
    ensures Keys0(K())
  {
  }

  lemma KeyRow1()
    ensures Keys1(K())
  {
  }

  lemma KeyRow2()
    ensures Keys2(K())
  {
  }

  lemma KeyRow3()
    ensures Keys3(K())
  {
  }

  lemma KeyRow4()
    ensures Keys4(K())
  {
  }

  lemma KeyRow5()
    ensures Keys5(K())
  {
  }

  lemma KeyRow6()
    ensures Keys6(K())
  {
  }

  lemma KeyRow7()
    ensures Keys7(K())
  {
  }

  lemma NextWord(w: seq<Word>, t: nat, w16: Word, w15: Word, w7: Word, w2: Word, x: Word)
    requires IsSchedule(w) && 16 <= t < 64
    requires w[t - 16] == w16 && w[t - 15] == w15 && w[t - 7] == w7 && w[t - 2] == w2
    requires Expand(w16, w15, w7, w2) == x
    ensures w[t] == x
  {
    hide Expand;
    assert Links(w, t);
  }

  lemma Expand2(w: seq<Word>)
    requires IsSchedule(w) && Words0(w) && Words1(w)
    ensures Words2(w)
  {
    hide IsSchedule;
    NextWord(w, 16, 0x61626380, 0x00000000, 0x00000000, 0x00000000, 0x61626380);
    NextWord(w, 17, 0x00000000, 0x00000000, 0x00000000, 0x00000018, 0x000f0000);
    NextWord(w, 18, 0x00000000, 0x00000000, 0x00000000, 0x61626380, 0x7da86405);
    NextWord(w, 19, 0x00000000, 0x00000000, 0x00000000, 0x000f0000, 0x600003c6);
    NextWord(w, 20, 0x00000000, 0x00000000, 0x00000000, 0x7da86405, 0x3e9d7b78);
    NextWord(w, 21, 0x00000000, 0x00000000, 0x00000000, 0x600003c6, 0x0183fc00);
    NextWord(w, 22, 0x00000000, 0x00000000, 0x00000018, 0x3e9d7b78, 0x12dcbfdb);
    NextWord(w, 23, 0x00000000, 0x00000000, 0x61626380, 0x0183fc00, 0xe2e2c38e);
  }

  lemma Expand3(w: seq<Word>)
    requires IsSchedule(w) && Words1(w) && Words2(w)
    ensures Words3(w)
  {
    hide IsSchedule;
    NextWord(w, 24, 0x00000000, 0x00000000, 0x000f0000, 0x12dcbfdb, 0xc8215c1a);
    NextWord(w, 25, 0x00000000, 0x00000000, 0x7da86405, 0xe2e2c38e, 0xb73679a2);
    NextWord(w, 26, 0x00000000, 0x00000000, 0x600003c6, 0xc8215c1a, 0xe5bc3909);
    NextWord(w, 27, 0x00000000, 0x00000000, 0x3e9d7b78, 0xb73679a2, 0x32663c5b);
    NextWord(w, 28, 0x00000000, 0x00000000, 0x0183fc00, 0xe5bc3909, 0x9d209d67);
    NextWord(w, 29, 0x00000000, 0x00000000, 0x12dcbfdb, 0x32663c5b, 0xec8726cb);
    NextWord(w, 30, 0x00000000, 0x00000018, 0xe2e2c38e, 0x9d209d67, 0x702138a4);
    NextWord(w, 31, 0x00000018, 0x61626380, 0xc8215c1a, 0xec8726cb, 0xd3b7973b);
  }

  lemma Expand4(w: seq<Word>)
    requires IsSchedule(w) && Words2(w) && Words3(w)
    ensures Words4(w)
  {
    hide IsSchedule;
    NextWord(w, 32, 0x61626380, 0x000f0000, 0xb73679a2, 0x702138a4, 0x93f5997f);
    NextWord(w, 33, 0x000f0000, 0x7da86405, 0xe5bc3909, 0xd3b7973b, 0x3b68ba73);
    NextWord(w, 34, 0x7da86405, 0x600003c6, 0x32663c5b, 0x93f5997f, 0xaff4ffc1);
    NextWord(w, 35, 0x600003c6, 0x3e9d7b78, 0x9d209d67, 0x3b68ba73, 0xf10a5c62);
    NextWord(w, 36, 0x3e9d7b78, 0x0183fc00, 0xec8726cb, 0xaff4ffc1, 0x0a8b3996);
    NextWord(w, 37, 0x0183fc00, 0x12dcbfdb, 0x702138a4, 0xf10a5c62, 0x72af830a);
    NextWord(w, 38, 0x12dcbfdb, 0xe2e2c38e, 0xd3b7973b, 0x0a8b3996, 0x9409e33e);
    NextWord(w, 39, 0xe2e2c38e, 0xc8215c1a, 0x93f5997f, 0x72af830a, 0x24641522);
  }

  lemma Expand5(w: seq<Word>)
    requires IsSchedule(w) && Words3(w) && Words4(w)
    ensures Words5(w)
  {
    hide IsSchedule;
    NextWord(w, 40, 0xc8215c1a, 0xb73679a2, 0x3b68ba73, 0x9409e33e, 0x9f47bf94);
    NextWord(w, 41, 0xb73679a2, 0xe5bc3909, 0xaff4ffc1, 0x24641522, 0xf0a64f5a);
    NextWord(w, 42, 0xe5bc3909, 0x32663c5b, 0xf10a5c62, 0x9f47bf94, 0x3e246a79);
    NextWord(w, 43, 0x32663c5b, 0x9d209d67, 0x0a8b3996, 0xf0a64f5a, 0x27333ba3);
    NextWord(w, 44, 0x9d209d67, 0xec8726cb, 0x72af830a, 0x3e246a79, 0x0c4763f2);
    NextWord(w, 45, 0xec8726cb, 0x702138a4, 0x9409e33e, 0x27333ba3, 0x840abf27);
    NextWord(w, 46, 0x702138a4, 0xd3b7973b, 0x24641522, 0x0c4763f2, 0x7a290d5d);
    NextWord(w, 47, 0xd3b7973b, 0x93f5997f, 0x9f47bf94, 0x840abf27, 0x065c43da);
  }

  lemma Expand6(w: seq<Word>)
    requires IsSchedule(w) && Words4(w) && Words5(w)
    ensures Words6(w)
  {
    hide IsSchedule;
    NextWord(w, 48, 0x93f5997f, 0x3b68ba73, 0xf0a64f5a, 0x7a290d5d, 0xfb3e89cb);
    NextWord(w, 49, 0x3b68ba73, 0xaff4ffc1, 0x3e246a79, 0x065c43da, 0xcc7617db);
    NextWord(w, 50, 0xaff4ffc1, 0xf10a5c62, 0x27333ba3, 0xfb3e89cb, 0xb9e66c34);
    NextWord(w, 51, 0xf10a5c62, 0x0a8b3996, 0x0c4763f2, 0xcc7617db, 0xa9993667);
    NextWord(w, 52, 0x0a8b3996, 0x72af830a, 0x840abf27, 0xb9e66c34, 0x84badedd);
    NextWord(w, 53, 0x72af830a, 0x9409e33e, 0x7a290d5d, 0xa9993667, 0xc21462bc);
    NextWord(w, 54, 0x9409e33e, 0x24641522, 0x065c43da, 0x84badedd, 0x1487472c);
    NextWord(w, 55, 0x24641522, 0x9f47bf94, 0xfb3e89cb, 0xc21462bc, 0xb20f7a99);
  }

  lemma Expand7(w: seq<Word>)
    requires IsSchedule(w) && Words5(w) && Words6(w)
    ensures Words7(w)
  {
    hide IsSchedule;
    NextWord(w, 56, 0x9f47bf94, 0xf0a64f5a, 0xcc7617db, 0x1487472c, 0xef57b9cd);
    NextWord(w, 57, 0xf0a64f5a, 0x3e246a79, 0xb9e66c34, 0xb20f7a99, 0xebe6b238);
    NextWord(w, 58, 0x3e246a79, 0x27333ba3, 0xa9993667, 0xef57b9cd, 0x9fe3095e);
    NextWord(w, 59, 0x27333ba3, 0x0c4763f2, 0x84badedd, 0xebe6b238, 0x78bc8d4b);
    NextWord(w, 60, 0x0c4763f2, 0x840abf27, 0xc21462bc, 0x9fe3095e, 0xa43fcf15);
    NextWord(w, 61, 0x840abf27, 0x7a290d5d, 0x1487472c, 0x78bc8d4b, 0x668b2ff8);
    NextWord(w, 62, 0x7a290d5d, 0x065c43da, 0xb20f7a99, 0xa43fcf15, 0xeeaba2cc);
    NextWord(w, 63, 0x065c43da, 0xfb3e89cb, 0xef57b9cd, 0x668b2ff8, 0x12b1edeb);
  }

  lemma NextRound(w: seq<Word>, t: nat, v: Working, k: Word, x: Word, a: Word, e: Word) returns (r: Working)
    requires |w| == 64 && t < 64 && Rounds(V0, w, t) == v && K()[t] == k && w[t] == x
    requires Round(v, k, x) == Working(a, v.a, v.b, v.c, e, v.e, v.f, v.g)
    ensures r == Working(a, v.a, v.b, v.c, e, v.e, v.f, v.g)
    ensures Rounds(V0, w, t + 1) == r
  {
    hide Round, K;
    r := Working(a, v.a, v.b, v.c, e, v.e, v.f, v.g);
  }

  lemma Rounds0(w: seq<Word>)
    requires Words0(w) && Rounds(V0, w, 0) == V0
    ensures Rounds(V0, w, 8) == V8
  {
    hide Rounds, K;
    KeyRow0();
    var v := V0;
    v := NextRound(w, 0, v, 0x428a2f98, 0x61626380, 0x5d6aebcd, 0xfa2a4622);
    v := NextRound(w, 1, v, 0x71374491, 0x00000000, 0x5a6ad9ad, 0x78ce7989);
    v := NextRound(w, 2, v, 0xb5c0fbcf, 0x00000000, 0xc8c347a7, 0xf92939eb);
    v := NextRound(w, 3, v, 0xe9b5dba5, 0x00000000, 0xd550f666, 0x24e00850);
    v := NextRound(w, 4, v, 0x3956c25b, 0x00000000, 0x04409a6a, 0x43ada245);
    v := NextRound(w, 5, v, 0x59f111f1, 0x00000000, 0x2b4209f5, 0x714260ad);
    v := NextRound(w, 6, v, 0x923f82a4, 0x00000000, 0xe5030380, 0x9b27a401);
    v := NextRound(w, 7, v, 0xab1c5ed5, 0x00000000, 0x85a07b5f, 0x0c657a79);
  }

  lemma Rounds1(w: seq<Word>)
    requires Words1(w) && Rounds(V0, w, 8) == V8
    ensures Rounds(V0, w, 16) == V16
  {
    hide Rounds, K;
    KeyRow1();
    var v := V8;
    v := NextRound(w, 8, v, 0xd807aa98, 0x00000000, 0x8e04ecb9, 0x32ca2d8c);
    v := NextRound(w, 9, v, 0x12835b01, 0x00000000, 0x8c87346b, 0x1cc92596);
    v := NextRound(w, 10, v, 0x243185be, 0x00000000, 0x4798a3f4, 0x436b23e8);
    v := NextRound(w, 11, v, 0x550c7dc3, 0x00000000, 0xf71fc5a9, 0x816fd6e9);
    v := NextRound(w, 12, v, 0x72be5d74, 0x00000000, 0x87912990, 0x1e578218);
    v := NextRound(w, 13, v, 0x80deb1fe, 0x00000000, 0xd932eb16, 0x745a48de);
    v := NextRound(w, 14, v, 0x9bdc06a7, 0x00000000, 0xc0645fde, 0x0b92f20c);
    v := NextRound(w, 15, v, 0xc19bf174, 0x00000018, 0xb0fa238e, 0x07590dcd);
  }

  lemma Rounds2(w: seq<Word>)
    requires Words2(w) && Rounds(V0, w, 16) == V16
    ensures Rounds(V0, w, 24) == V24
  {
    hide Rounds, K;
    KeyRow2();
    var v := V16;
    v := NextRound(w, 16, v, 0xe49b69c1, 0x61626380, 0x21da9a9b, 0x8034229c);
    v := NextRound(w, 17, v, 0xefbe4786, 0x000f0000, 0xc2fbd9d1, 0x846ee454);
    v := NextRound(w, 18, v, 0x0fc19dc6, 0x7da86405, 0xfe777bbf, 0xcc899961);
    v := NextRound(w, 19, v, 0x240ca1cc, 0x600003c6, 0xe1f20c33, 0xb0638179);
    v := NextRound(w, 20, v, 0x2de92c6f, 0x3e9d7b78, 0x9dc68b63, 0x8ada8930);
    v := NextRound(w, 21, v, 0x4a7484aa, 0x0183fc00, 0xc2606d6d, 0xe1257970);
    v := NextRound(w, 22, v, 0x5cb0a9dc, 0x12dcbfdb, 0xa7a3623f, 0x49f5114a);
    v := NextRound(w, 23, v, 0x76f988da, 0xe2e2c38e, 0xc5d53d8d, 0xaa47c347);
  }

  lemma Rounds3(w: seq<Word>)
    requires Words3(w) && Rounds(V0, w, 24) == V24
    ensures Rounds(V0, w, 32) == V32
  {
    hide Rounds, K;
    KeyRow3();
    var v := V24;
    v := NextRound(w, 24, v, 0x983e5152, 0xc8215c1a, 0x1c2c2838, 0x2823ef91);
    v := NextRound(w, 25, v, 0xa831c66d, 0xb73679a2, 0xcde8037d, 0x14383d8e);
    v := NextRound(w, 26, v, 0xb00327c8, 0xe5bc3909, 0xb62ec4bc, 0xc74c6516);
    v := NextRound(w, 27, v, 0xbf597fc7, 0x32663c5b, 0x77d37528, 0xedffbff8);
    v := NextRound(w, 28, v, 0xc6e00bf3, 0x9d209d67, 0x363482c9, 0x6112a3b7);
    v := NextRound(w, 29, v, 0xd5a79147, 0xec8726cb, 0xa0060b30, 0xade79437);
    v := NextRound(w, 30, v, 0x06ca6351, 0x702138a4, 0xea992a22, 0x0109ab3a);
    v := NextRound(w, 31, v, 0x14292967, 0xd3b7973b, 0x73b33bf5, 0xba591112);
  }

  lemma Rounds4(w: seq<Word>)
    requires Words4(w) && Rounds(V0, w, 32) == V32
    ensures Rounds(V0, w, 40) == V40
  {
    hide Rounds, K;
    KeyRow4();
    var v := V32;
    v := NextRound(w, 32, v, 0x27b70a85, 0x93f5997f, 0x98e12507, 0x9cd9f5f6);
    v := NextRound(w, 33, v, 0x2e1b2138, 0x3b68ba73, 0xfe604df5, 0x59249dd3);
    v := NextRound(w, 34, v, 0x4d2c6dfc, 0xaff4ffc1, 0xa9a7738c, 0x085f3833);
    v := NextRound(w, 35, v, 0x53380d13, 0xf10a5c62, 0x65a0cfe4, 0xf4b002d6);
    v := NextRound(w, 36, v, 0x650a7354, 0x0a8b3996, 0x41a65cb1, 0x0772a26b);
    v := NextRound(w, 37, v, 0x766a0abb, 0x72af830a, 0x34df1604, 0xa507a53d);
    v := NextRound(w, 38, v, 0x81c2c92e, 0x9409e33e, 0x6dc57a8a, 0xf0781bc8);
    v := NextRound(w, 39, v, 0x92722c85, 0x24641522, 0x79ea687a, 0x1efbc0a0);
  }

  lemma Rounds5(w: seq<Word>)
    requires Words5(w) && Rounds(V0, w, 40) == V40
    ensures Rounds(V0, w, 48) == V48
  {
    hide Rounds, K;
    KeyRow5();
    var v := V40;
    v := NextRound(w, 40, v, 0xa2bfe8a1, 0x9f47bf94, 0xd6670766, 0x26352d63);
    v := NextRound(w, 41, v, 0xa81a664b, 0xf0a64f5a, 0xdf46652f, 0x838b2711);
    v := NextRound(w, 42, v, 0xc24b8b70, 0x3e246a79, 0x17aa0dfe, 0xdecd4715);
    v := NextRound(w, 43, v, 0xc76c51a3, 0x27333ba3, 0x9d4baf93, 0xfda24c2e);
    v := NextRound(w, 44, v, 0xd192e819, 0x0c4763f2, 0x26628815, 0xa80f11f0);
    v := NextRound(w, 45, v, 0xd6990624, 0x840abf27, 0x72ab4b91, 0xb7755da1);
    v := NextRound(w, 46, v, 0xf40e3585, 0x7a290d5d, 0xa14c14b0, 0xd57b94a9);
    v := NextRound(w, 47, v, 0x106aa070, 0x065c43da, 0x4172328d, 0xfecf0bc6);
  }

  lemma Rounds6(w: seq<Word>)
    requires Words6(w) && Rounds(V0, w, 48) == V48
    ensures Rounds(V0, w, 56) == V56
  {
    hide Rounds, K;
    KeyRow6();
    var v := V48;
    v := NextRound(w, 48, v, 0x19a4c116, 0xfb3e89cb, 0x05757ceb, 0xbd714038);
    v := NextRound(w, 49, v, 0x1e376c08, 0xcc7617db, 0xf11bfaa8, 0x6e5c390c);
    v := NextRound(w, 50, v, 0x2748774c, 0xb9e66c34, 0x7a0508a1, 0x52f1ccf7);
    v := NextRound(w, 51, v, 0x34b0bcb5, 0xa9993667, 0x886e7a22, 0x49231c1e);
    v := NextRound(w, 52, v, 0x391c0cb3, 0x84badedd, 0x101fd28f, 0x529e7d00);
    v := NextRound(w, 53, v, 0x4ed8aa4a, 0xc21462bc, 0xf5702fdb, 0x9f4787c3);
    v := NextRound(w, 54, v, 0x5b9cca4f, 0x1487472c, 0x3ec45cdb, 0xe50e1b4f);
    v := NextRound(w, 55, v, 0x682e6ff3, 0xb20f7a99, 0x38cc9913, 0x54cb266b);
  }

  lemma Rounds7(w: seq<Word>)
    requires Words7(w) && Rounds(V0, w, 56) == V56
    ensures Rounds(V0, w, 64) == V64
  {
    hide Rounds, K;
    KeyRow7();
    var v := V56;
    v := NextRound(w, 56, v, 0x748f82ee, 0xef57b9cd, 0xfcd1887b, 0x9b5e906c);
    v := NextRound(w, 57, v, 0x78a5636f, 0xebe6b238, 0xc062d46f, 0x7e44008e);
    v := NextRound(w, 58, v, 0x84c87814, 0x9fe3095e, 0xffb70472, 0x6d83bfc6);
    v := NextRound(w, 59, v, 0x8cc70208, 0x78bc8d4b, 0xb6ae8fff, 0xb21bad3d);
    v := NextRound(w, 60, v, 0x90befffa, 0xa43fcf15, 0xb85e2ce9, 0x961f4894);
    v := NextRound(w, 61, v, 0xa4506ceb, 0x668b2ff8, 0x04d24d6c, 0x948d25b6);
    v := NextRound(w, 62, v, 0xbef9a3f7, 0xeeaba2cc, 0xd39a2165, 0xfb121210);
    v := NextRound(w, 63, v, 0xc67178f2, 0x12b1edeb, 0x506e3058, 0x5ef50f24);
  }

  // ---------------------------------------------------------------- the block and the text

  const ABC: seq<bv8> := [0x61, 0x62, 0x63]

  lemma {:induction false} ShiftZero(bits: nat)
    ensures ShiftRight(0, bits) == 0
  {
    if bits > 0 {
      ShiftZero(bits - 1);
    }
  }

  lemma ShiftByte()
    ensures ShiftRight(24, 8) == 0
  {
    ShiftTwice(24, 4, 4);
    assert ShiftRight(24, 4) == ShiftRight(12, 3) == ShiftRight(6, 2) == ShiftRight(3, 1) == 1;
    assert ShiftRight(1, 4) == ShiftRight(0, 3);
    ShiftZero(3);
  }

  lemma BytesOfLength()
    ensures ToByte(24) == 0x18 && ToByte(0) == 0
  {
    assert Binary(1, 4) == [0, 0, 0, 1];
    assert Binary(24, 8) == [0, 0, 0, 1, 1, 0, 0, 0];
    assert Binary(0, 4) == [0, 0, 0, 0];
    assert Binary(0, 8) == [0, 0, 0, 0, 0, 0, 0, 0];
  }

  lemma LengthByte(k: nat)
    requires k < 8
    ensures ToByte(ShiftRight(24, 8 * k)) == if k == 0 then 0x18 else 0
  {
    hide ToByte;
    BytesOfLength();
    if k > 0 {
      ShiftByte();
      hide ShiftRight;
      ShiftTwice(24, 8, 8 * (k - 1));
      ShiftZero(8 * (k - 1));
    }
  }

  lemma BlockByte(j: nat)
    requires j < 64
    ensures |ABC + Padding(3, 24)| == 64
    ensures (ABC + Padding(3, 24))[j]
         == if j < 3 then ABC[j] else if j == 3 then 0x80 else if j == 63 then 0x18 else 0
  {
    hide ToByte, ShiftRight, LengthBytes, Padding;
    if j >= 3 {
      PaddingAt(3, 24, j);
      if j >= 56 {
        LengthByte(63 - j);
      }
    }
  }

  lemma BlockWord(t: nat)
    requires t < 16
    ensures |ABC + Padding(3, 24)| == 64
    ensures Scheduled(Parse(MessageBits(ABC + Padding(3, 24))))[t]
         == if t == 0 then 0x61626380 else if t == 15 then 0x18 else 0
  {
    hide MessageBits, Padding, Parse;
    var block := ABC + Padding(3, 24);
    BlockByte(4 * t);
    BlockByte(4 * t + 1);
    BlockByte(4 * t + 2);
    BlockByte(4 * t + 3);
    ParsedWord(block, t);
  }

  lemma BlockWords(w: seq<Word>)
    requires |ABC + Padding(3, 24)| == 64 && w == Scheduled(Parse(MessageBits(ABC + Padding(3, 24))))
    ensures Words0(w) && Words1(w)
  {
    hide MessageBits, Padding, Parse, Scheduled;
    forall t | 0 <= t < 16
      ensures w[t] == if t == 0 then 0x61626380 else if t == 15 then 0x18 else 0
    {
      BlockWord(t);
    }
  }

  lemma AllRounds(w: seq<Word>)
    requires IsSchedule(w) && Words0(w) && Words1(w)
    ensures Rounds(V0, w, 64) == V64
  {
    assert Rounds(V0, w, 0) == V0;
    hide IsSchedule, Rounds, Words0, Words1, Words2, Words3, Words4, Words5, Words6, Words7;
    Expand2(w); Expand3(w); Expand4(w); Expand5(w); Expand6(w); Expand7(w);
    Rounds0(w); Rounds1(w); Rounds2(w); Rounds3(w); Rounds4(w); Rounds5(w); Rounds6(w); Rounds7(w);
  }

  lemma FirstVariables()
    ensures var h := H0(); Working(h[0], h[1], h[2], h[3], h[4], h[5], h[6], h[7]) == V0
  {
  }

  lemma LastSum()
    ensures Summed(H0(), V64) == DIGEST
  {
  }

  const DIGEST: seq<Word> := [0xba7816bf, 0x8f01cfea, 0x414140de, 0x5dae2223, 0xb00361a3, 0x96177a9c,
     0xb410ff61, 0xf20015ad]

  lemma DigestWords()
    ensures Digest(MessageBits(ABC)) == DIGEST
  {
    hide MessageBits, Padding, Parse, HashBlocks, Padded, Rounds, IsSchedule, H0, Summed;
    var block := ABC + Padding(3, 24);
    PaddingPads(ABC, Padding(3, 24));
    BlockByte(0);
    var m := Parse(MessageBits(block));
    ScheduledLinks(m);
    BlockWords(Scheduled(m));
    AllRounds(Scheduled(m));
    FirstVariables();
    LastSum();
    assert block[..64] == block && block[64..] == [];
    HashFirst(H0(), block);
    HashNothing(DIGEST, block[64..]);
  }

  lemma WordText(w: Word, text: string)
    requires |text| == 8
    requires text[0] == HEX[(w >> 28) as int] && text[1] == HEX[((w >> 24) & 0xF) as int]
    requires text[2] == HEX[((w >> 20) & 0xF) as int] && text[3] == HEX[((w >> 16) & 0xF) as int]
    requires text[4] == HEX[((w >> 12) & 0xF) as int] && text[5] == HEX[((w >> 8) & 0xF) as int]
    requires text[6] == HEX[((w >> 4) & 0xF) as int] && text[7] == HEX[(w & 0xF) as int]
    ensures WordHex(w, 8) == text
  {
    WordDigits(w);
  }

  lemma Text0()
    ensures WordHex(0xba7816bf, 8) == "ba7816bf"
  {
    WordText(0xba7816bf, "ba7816bf");
  }

  lemma Text1()
    ensures WordHex(0x8f01cfea, 8) == "8f01cfea"
  {
    WordText(0x8f01cfea, "8f01cfea");
  }

  lemma Text2()
    ensures WordHex(0x414140de, 8) == "414140de"
  {
    WordText(0x414140de, "414140de");
  }

  lemma Text3()
    ensures WordHex(0x5dae2223, 8) == "5dae2223"
  {
    WordText(0x5dae2223, "5dae2223");
  }

  lemma Text4()
    ensures WordHex(0xb00361a3, 8) == "b00361a3"
  {
    WordText(0xb00361a3, "b00361a3");
  }

  lemma Text5()
    ensures WordHex(0x96177a9c, 8) == "96177a9c"
  {
    WordText(0x96177a9c, "96177a9c");
  }

  lemma Text6()
    ensures WordHex(0xb410ff61, 8) == "b410ff61"
  {
    WordText(0xb410ff61, "b410ff61");
  }

  lemma Text7()
    ensures WordHex(0xf20015ad, 8) == "f20015ad"
  {
    WordText(0xf20015ad, "f20015ad");
  }

  /** The code's hash of "abc" is the published one. */
  lemma DigestOfAbc()
    ensures var text := Hex(Digest(MessageBits(ABC)));
            && |text| == 64
            && text[..8] == "ba7816bf" && text[8..16] == "8f01cfea" && text[16..24] == "414140de"
            && text[24..32] == "5dae2223" && text[32..40] == "b00361a3" && text[40..48] == "96177a9c"
            && text[48..56] == "b410ff61" && text[56..] == "f20015ad"
  {
    hide Digest, MessageBits, WordHex, Hex;
    DigestWords();
    Text0(); Text1(); Text2(); Text3(); Text4(); Text5(); Text6(); Text7();
    HexAt(DIGEST, 0); HexAt(DIGEST, 1); HexAt(DIGEST, 2); HexAt(DIGEST, 3);
    HexAt(DIGEST, 4); HexAt(DIGEST, 5); HexAt(DIGEST, 6); HexAt(DIGEST, 7);
  }
}
