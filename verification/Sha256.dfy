/** The Secure Hash Standard's definition of SHA-256 (FIPS 180-4), over strings of bits. */
module Fips180 {

  type Bits = seq<bv1>
  type Word = bv32

  // ---------------------------------------------------------------- sections 3.2 and 4.1.2: functions

  // Addition modulo 2^32, of as many summands as the standard writes down.
  function Sum2(a: Word, b: Word): Word {
    a + b
  }

  function Sum4(a: Word, b: Word, c: Word, d: Word): Word {
    a + b + c + d
  }

  function Sum5(a: Word, b: Word, c: Word, d: Word, e: Word): Word {
    a + b + c + d + e
  }

  function Ch(x: Word, y: Word, z: Word): Word {
    (x & y) ^ (!x & z)
  }

  function Maj(x: Word, y: Word, z: Word): Word {
    (x & y) ^ (x & z) ^ (y & z)
  }

  function BigSigma0(x: Word): Word {
    x.RotateRight(2) ^ x.RotateRight(13) ^ x.RotateRight(22)
  }

  function BigSigma1(x: Word): Word {
    x.RotateRight(6) ^ x.RotateRight(11) ^ x.RotateRight(25)
  }

  function SmallSigma0(x: Word): Word {
    x.RotateRight(7) ^ x.RotateRight(18) ^ (x >> 3)
  }

  function SmallSigma1(x: Word): Word {
    x.RotateRight(17) ^ x.RotateRight(19) ^ (x >> 10)
  }

  // ---------------------------------------------------------------- sections 4.2.2 and 5.3.3: constants

  // The table, row by row as it is printed.
  function KRow(r: nat): (k: seq<Word>)
    ensures |k| == 8
  {
    match r
    case 0 => [0x428a2f98, 0x71374491, 0xb5c0fbcf, 0xe9b5dba5, 0x3956c25b, 0x59f111f1, 0x923f82a4, 0xab1c5ed5]
    case 1 => [0xd807aa98, 0x12835b01, 0x243185be, 0x550c7dc3, 0x72be5d74, 0x80deb1fe, 0x9bdc06a7, 0xc19bf174]
    case 2 => [0xe49b69c1, 0xefbe4786, 0x0fc19dc6, 0x240ca1cc, 0x2de92c6f, 0x4a7484aa, 0x5cb0a9dc, 0x76f988da]
    case 3 => [0x983e5152, 0xa831c66d, 0xb00327c8, 0xbf597fc7, 0xc6e00bf3, 0xd5a79147, 0x06ca6351, 0x14292967]
    case 4 => [0x27b70a85, 0x2e1b2138, 0x4d2c6dfc, 0x53380d13, 0x650a7354, 0x766a0abb, 0x81c2c92e, 0x92722c85]
    case 5 => [0xa2bfe8a1, 0xa81a664b, 0xc24b8b70, 0xc76c51a3, 0xd192e819, 0xd6990624, 0xf40e3585, 0x106aa070]
    case 6 => [0x19a4c116, 0x1e376c08, 0x2748774c, 0x34b0bcb5, 0x391c0cb3, 0x4ed8aa4a, 0x5b9cca4f, 0x682e6ff3]
    case _ => [0x748f82ee, 0x78a5636f, 0x84c87814, 0x8cc70208, 0x90befffa, 0xa4506ceb, 0xbef9a3f7, 0xc67178f2]
  }

  function K(): (k: seq<Word>)
    ensures |k| == 64
  {
    seq(64, t requires 0 <= t < 64 => KRow(t / 8)[t % 8])
  }

  function H0(): (h: seq<Word>)
    ensures |h| == 8
  {
    [0x6a09e667, 0xbb67ae85, 0x3c6ef372, 0xa54ff53a, 0x510e527f, 0x9b05688c, 0x1f83d9ab, 0x5be0cd19]
  }

  // ---------------------------------------------------------------- section 5.1.1: padding

  // The number n in binary, most significant bit first (n modulo 2^width).
  function Binary(n: nat, width: nat): (r: Bits)
    ensures |r| == width
  {
    if width == 0 then [] else Binary(n / 2, width - 1) + [if n % 2 == 1 then 1 else 0]
  }

  // The smallest non-negative k with l + 1 + k congruent to 448 modulo 512.
  function ZeroCount(l: nat): (k: nat)
    ensures (l + 1 + k) % 512 == 448
    ensures k < 512
  {
    (447 - l) % 512
  }

  lemma ZeroCountIsLeast(l: nat, j: nat)
    requires (l + 1 + j) % 512 == 448
    ensures ZeroCount(l) <= j
  {
  }

  function Zeros(k: nat): (r: Bits)
    ensures |r| == k
  {
    seq(k, _ => 0)
  }

  function Padded(message: Bits): Bits {
    message + [1] + Zeros(ZeroCount(|message|)) + Binary(|message|, 64)
  }

  // ---------------------------------------------------------------- section 5.2.1: parsing

  function ByteOf(s: Bits): bv8
    requires |s| == 8
  {
    ((s[0] as bv8) << 7) | ((s[1] as bv8) << 6) | ((s[2] as bv8) << 5) | ((s[3] as bv8) << 4) |
    ((s[4] as bv8) << 3) | ((s[5] as bv8) << 2) | ((s[6] as bv8) << 1) | (s[7] as bv8)
  }

  function BigEndian(b0: bv8, b1: bv8, b2: bv8, b3: bv8): Word {
    ((b0 as bv32) << 24) | ((b1 as bv32) << 16) | ((b2 as bv32) << 8) | (b3 as bv32)
  }

  // A string of 32 bits as a word, most significant bit first.
  function WordOf(s: Bits): Word
    requires |s| == 32
  {
    BigEndian(ByteOf(s[..8]), ByteOf(s[8..16]), ByteOf(s[16..24]), ByteOf(s[24..]))
  }

  function Parse(block: Bits): (m: seq<Word>)
    requires |block| == 512
    ensures |m| == 16
    ensures forall t :: 0 <= t < 16 ==> m[t] == WordOf(block[32 * t..32 * t + 32])
  {
    seq(16, t requires 0 <= t < 16 => WordOf(block[32 * t..32 * t + 32]))
  }

  // ---------------------------------------------------------------- section 6.2.2: computation

  // The word sixteen places after w16 in the message schedule.
  function Expand(w16: Word, w15: Word, w7: Word, w2: Word): Word {
    Sum4(SmallSigma1(w2), w7, SmallSigma0(w15), w16)
  }

  function Schedule(m: seq<Word>, t: nat): Word
    requires |m| == 16
  {
    if t < 16 then m[t]
    else Expand(Schedule(m, t - 16), Schedule(m, t - 15), Schedule(m, t - 7), Schedule(m, t - 2))
  }

  datatype Working = Working(a: Word, b: Word, c: Word, d: Word, e: Word, f: Word, g: Word, h: Word)

  function T1(v: Working, k: Word, w: Word): Word {
    Sum5(v.h, BigSigma1(v.e), Ch(v.e, v.f, v.g), k, w)
  }

  function T2(v: Working): Word {
    Sum2(BigSigma0(v.a), Maj(v.a, v.b, v.c))
  }

  function Round(v: Working, k: Word, w: Word): Working {
    Working(Sum2(T1(v, k, w), T2(v)), v.a, v.b, v.c, Sum2(v.d, T1(v, k, w)), v.e, v.f, v.g)
  }

  // The prepared message schedule W_0, ..., W_63.
  function Scheduled(m: seq<Word>): (s: seq<Word>)
    requires |m| == 16
    ensures |s| == 64 && forall t :: 0 <= t < 64 ==> s[t] == Schedule(m, t)
  {
    seq(64, t requires 0 <= t < 64 => Schedule(m, t))
  }

  // The working variables after the rounds 0, ..., t - 1.
  function Rounds(v: Working, w: seq<Word>, t: nat): Working
    requires |w| == 64 && t <= 64
  {
    if t == 0 then v else Round(Rounds(v, w, t - 1), K()[t - 1], w[t - 1])
  }

  function Summed(h: seq<Word>, v: Working): (r: seq<Word>)
    requires |h| == 8
    ensures |r| == 8
  {
    [Sum2(h[0], v.a), Sum2(h[1], v.b), Sum2(h[2], v.c), Sum2(h[3], v.d),
     Sum2(h[4], v.e), Sum2(h[5], v.f), Sum2(h[6], v.g), Sum2(h[7], v.h)]
  }

  function HashBlock(h: seq<Word>, m: seq<Word>): (r: seq<Word>)
    requires |h| == 8 && |m| == 16
    ensures |r| == 8
  {
    var w := Scheduled(m);
    Summed(h, Rounds(Working(h[0], h[1], h[2], h[3], h[4], h[5], h[6], h[7]), w, |w|))
  }

  // One block of 512 bits after the other.
  function HashBlocks(h: seq<Word>, blocks: Bits): (r: seq<Word>)
    requires |h| == 8
    ensures |r| == 8
    decreases |blocks|
  {
    if |blocks| < 512 then h else HashBlocks(HashBlock(h, Parse(blocks[..512])), blocks[512..])
  }

  function Digest(message: Bits): (r: seq<Word>)
    ensures |r| == 8
  {
    HashBlocks(H0(), Padded(message))
  }
}

/** The block loop, the hand-built tail and the hex printer (core/src/sha256.cpp). */
module Sha256 {
  import opened Fips180
  import opened Sequences

  // A byte as eight bits, most significant first.
  function ByteBits(b: bv8): (r: Bits)
    ensures |r| == 8
  {
    [((b >> 7) & 1) as bv1, ((b >> 6) & 1) as bv1, ((b >> 5) & 1) as bv1, ((b >> 4) & 1) as bv1,
     ((b >> 3) & 1) as bv1, ((b >> 2) & 1) as bv1, ((b >> 1) & 1) as bv1, (b & 1) as bv1]
  }

  function MessageBits(bytes: seq<bv8>): (r: Bits)
    ensures |r| == 8 * |bytes|
  {
    if bytes == [] then [] else MessageBits(bytes[..|bytes| - 1]) + ByteBits(bytes[|bytes| - 1])
  }

  lemma {:induction false} MessageBitsConcat(a: seq<bv8>, b: seq<bv8>)
    ensures MessageBits(a + b) == MessageBits(a) + MessageBits(b)
  {
    hide ByteBits;
    if b == [] {
      assert a + b == a;
    } else {
      var n := |b| - 1;
      MessageBitsConcat(a, b[..n]);
      assert (a + b)[..|a| + n] == a + b[..n];
    }
  }

  lemma MiddleBits(a: seq<bv8>, b: seq<bv8>, c: seq<bv8>)
    ensures MessageBits(a + (b + c))[8 * |a|..8 * |a| + 8 * |b|] == MessageBits(b)
  {
    MessageBitsConcat(a, b + c);
    MessageBitsConcat(b, c);
  }

  lemma ByteOfBits(b: bv8)
    ensures ByteOf(ByteBits(b)) == b
  {
  }

  lemma BitsOfByte(b: bv8, p: bv1, q: bv1, r: bv1, s: bv1, t: bv1, u: bv1, v: bv1, w: bv1)
    requires b == ((p as bv8) << 7) | ((q as bv8) << 6) | ((r as bv8) << 5) | ((s as bv8) << 4) |
                  ((t as bv8) << 3) | ((u as bv8) << 2) | ((v as bv8) << 1) | (w as bv8)
    ensures ByteBits(b)[0] == p && ByteBits(b)[1] == q && ByteBits(b)[2] == r && ByteBits(b)[3] == s
    ensures ByteBits(b)[4] == t && ByteBits(b)[5] == u && ByteBits(b)[6] == v && ByteBits(b)[7] == w
  {
  }

  lemma ByteBitsOf(s: Bits)
    requires |s| == 8
    ensures ByteBits(ByteOf(s)) == s
  {
    BitsOfByte(ByteOf(s), s[0], s[1], s[2], s[3], s[4], s[5], s[6], s[7]);
  }

  lemma OneByte(b: bv8)
    ensures MessageBits([b]) == ByteBits(b)
  {
    assert [b][..0] == [];
  }

  // The k-th byte of the t-th word of a string of bits.
  lemma ByteOfWord(bits: Bits, t: nat, k: nat)
    requires 32 * t + 32 <= |bits| && k < 4
    ensures bits[32 * t..32 * t + 32][8 * k..8 * k + 8] == bits[8 * (4 * t + k)..8 * (4 * t + k) + 8]
  {
  }

  // The k-th byte of the t-th word of a block's bits.
  lemma ParsedByte(block: seq<bv8>, t: nat, k: nat)
    requires |block| == 64 && t < 16 && k < 4
    ensures ByteOf(MessageBits(block)[32 * t..32 * t + 32][8 * k..8 * k + 8]) == block[4 * t + k]
  {
    hide ByteOf, MessageBits;
    ByteOfWord(MessageBits(block), t, k);
    ByteAt(block, 4 * t + k);
  }

  // Parsing the bits of a block gives the words that the code assembles from its bytes.
  lemma ParsedWord(block: seq<bv8>, t: nat)
    requires |block| == 64 && t < 16
    ensures Parse(MessageBits(block))[t]
         == BigEndian(block[4 * t], block[4 * t + 1], block[4 * t + 2], block[4 * t + 3])
  {
    hide ByteOf, BigEndian, MessageBits, WordOf;
    FourBytes(MessageBits(block)[32 * t..32 * t + 32]);
    ParsedByte(block, t, 0);
    ParsedByte(block, t, 1);
    ParsedByte(block, t, 2);
    ParsedByte(block, t, 3);
  }

  lemma FourBytes(word: Bits)
    requires |word| == 32
    ensures WordOf(word) == BigEndian(ByteOf(word[8 * 0..8 * 0 + 8]), ByteOf(word[8 * 1..8 * 1 + 8]),
                                      ByteOf(word[8 * 2..8 * 2 + 8]), ByteOf(word[8 * 3..8 * 3 + 8]))
  {
    hide ByteOf, BigEndian;
    assert word[..8] == word[8 * 0..8 * 0 + 8] && word[24..] == word[8 * 3..8 * 3 + 8];
  }

  lemma ByteAt(bytes: seq<bv8>, i: nat)
    requires i < |bytes|
    ensures ByteOf(MessageBits(bytes)[8 * i..8 * i + 8]) == bytes[i]
  {
    hide ByteOf, ByteBits, MessageBits;
    MiddleBits(bytes[..i], [bytes[i]], bytes[i + 1..]);
    assert bytes == bytes[..i] + ([bytes[i]] + bytes[i + 1..]);
    OneByte(bytes[i]);
    ByteOfBits(bytes[i]);
  }

  // The rotation of section 3.2 is the machine rotation that std::rotr stands for.
  lemma RotationIsShifts(x: Word)
    ensures x.RotateRight(2) == (x >> 2) | (x << 30) && x.RotateRight(13) == (x >> 13) | (x << 19)
    ensures x.RotateRight(22) == (x >> 22) | (x << 10) && x.RotateRight(6) == (x >> 6) | (x << 26)
    ensures x.RotateRight(11) == (x >> 11) | (x << 21) && x.RotateRight(25) == (x >> 25) | (x << 7)
    ensures x.RotateRight(7) == (x >> 7) | (x << 25) && x.RotateRight(18) == (x >> 18) | (x << 14)
    ensures x.RotateRight(17) == (x >> 17) | (x << 15) && x.RotateRight(19) == (x >> 19) | (x << 13)
  {
  }

  lemma Sum4Is(a: Word, b: Word, c: Word, d: Word, w: Word)
    requires w == a + b + c + d
    ensures w == Sum4(d, c, b, a)
  {
  }

  lemma SmallSigmas(x: Word, s0: Word, y: Word, s1: Word)
    requires s0 == x.RotateRight(7) ^ x.RotateRight(18) ^ (x >> 3)
    requires s1 == y.RotateRight(17) ^ y.RotateRight(19) ^ (y >> 10)
    ensures s0 == SmallSigma0(x) && s1 == SmallSigma1(y)
  {
  }

  lemma ExpandIs(w16: Word, w15: Word, w7: Word, w2: Word, s0: Word, s1: Word)
    requires s0 == SmallSigma0(w15) && s1 == SmallSigma1(w2)
    ensures Sum4(s1, w7, s0, w16) == Expand(w16, w15, w7, w2)
  {
  }

  method ExpandWord(w16: Word, w15: Word, w7: Word, w2: Word) returns (w: Word)
    ensures w == Expand(w16, w15, w7, w2)
  {
    var s0 := w15.RotateRight(7) ^ w15.RotateRight(18) ^ (w15 >> 3);
    var s1 := w2.RotateRight(17) ^ w2.RotateRight(19) ^ (w2 >> 10);
    w := w16 + s0 + w7 + s1;
    SmallSigmas(w15, s0, w2, s1);
    Sum4Is(w16, s0, w7, s1, w);
    ExpandIs(w16, w15, w7, w2, s0, s1);
  }

  lemma BigSigmas(x: Word, s0: Word, y: Word, s1: Word)
    requires s0 == x.RotateRight(2) ^ x.RotateRight(13) ^ x.RotateRight(22)
    requires s1 == y.RotateRight(6) ^ y.RotateRight(11) ^ y.RotateRight(25)
    ensures s0 == BigSigma0(x) && s1 == BigSigma1(y)
  {
  }

  lemma Choices(x: Word, y: Word, z: Word, ch: Word, a: Word, b: Word, c: Word, maj: Word)
    requires ch == (x & y) ^ (!x & z) && maj == (a & b) ^ (a & c) ^ (b & c)
    ensures ch == Ch(x, y, z) && maj == Maj(a, b, c)
  {
  }

  lemma Sum5Is(a: Word, b: Word, c: Word, d: Word, e: Word, t: Word)
    requires t == a + b + c + d + e
    ensures t == Sum5(a, b, c, d, e)
  {
  }

  lemma T1Is(v: Working, k: Word, w: Word, s1: Word, ch: Word, t1: Word)
    requires s1 == BigSigma1(v.e) && ch == Ch(v.e, v.f, v.g) && t1 == Sum5(v.h, s1, ch, k, w)
    ensures t1 == T1(v, k, w)
  {
  }

  lemma T2Is(v: Working, s0: Word, maj: Word, t2: Word)
    requires s0 == BigSigma0(v.a) && maj == Maj(v.a, v.b, v.c) && t2 == Sum2(s0, maj)
    ensures t2 == T2(v)
  {
  }

  lemma RoundIs(v: Working, k: Word, w: Word, t1: Word, t2: Word, a: Word, e: Word)
    requires t1 == T1(v, k, w) && t2 == T2(v) && a == Sum2(t1, t2) && e == Sum2(v.d, t1)
    ensures Working(a, v.a, v.b, v.c, e, v.e, v.f, v.g) == Round(v, k, w)
  {
  }

  lemma Sum2Is(a: Word, b: Word, t: Word)
    requires t == a + b
    ensures t == Sum2(a, b)
  {
  }

  // The two temporaries of one round.
  method Temporaries(v: Working, k: Word, w: Word) returns (temp1: Word, temp2: Word)
    ensures temp1 == T1(v, k, w) && temp2 == T2(v)
  {
    var Working(a, b, c, _, e, f, g, h) := v;
    var s1 := e.RotateRight(6) ^ e.RotateRight(11) ^ e.RotateRight(25);
    var ch := (e & f) ^ (!e & g);
    temp1 := h + s1 + ch + k + w;
    var s0 := a.RotateRight(2) ^ a.RotateRight(13) ^ a.RotateRight(22);
    var maj := (a & b) ^ (a & c) ^ (b & c);
    temp2 := s0 + maj;
    BigSigmas(a, s0, e, s1);
    Choices(e, f, g, ch, a, b, c, maj);
    Sum5Is(h, s1, ch, k, w, temp1);
    Sum2Is(s0, maj, temp2);
    T1Is(v, k, w, s1, ch, temp1);
    T2Is(v, s0, maj, temp2);
  }

  method OneRound(v: Working, k: Word, w: Word) returns (r: Working)
    ensures r == Round(v, k, w)
  {
    var temp1, temp2 := Temporaries(v, k, w);
    var Working(a, b, c, d, e, f, g, h) := v;
    h := g;
    g := f;
    f := e;
    e := d + temp1;
    Sum2Is(d, temp1, e);
    d := c;
    c := b;
    b := a;
    a := temp1 + temp2;
    Sum2Is(temp1, temp2, a);
    RoundIs(v, k, w, temp1, temp2, a, e);
    r := Working(a, b, c, d, e, f, g, h);
  }

  // The whole message schedule as one sequence, by the equation of section 6.2.2.
  ghost predicate Links(s: seq<Word>, t: nat)
    requires 16 <= t < |s|
  {
    s[t] == Expand(s[t - 16], s[t - 15], s[t - 7], s[t - 2])
  }

  ghost predicate IsSchedule(s: seq<Word>) {
    |s| == 64 && forall t :: 16 <= t < 64 ==> Links(s, t)
  }

  method LoadBlock(block: seq<bv8>, w: array<Word>)
    requires |block| == 64 && w.Length == 64
    modifies w
    ensures forall t :: 0 <= t < 16 ==> w[t] == Parse(MessageBits(block))[t]
  {
    for i := 0 to 16
      invariant forall t :: 0 <= t < i ==> w[t] == Parse(MessageBits(block))[t]
    {
      ParsedWord(block, i);
      w[i] := BigEndian(block[4 * i], block[4 * i + 1], block[4 * i + 2], block[4 * i + 3]);
    }
  }

  method ExpandBlock(w: array<Word>, ghost s: seq<Word>)
    requires w.Length == 64 && IsSchedule(s) && w[..16] == s[..16]
    modifies w
    ensures w[..] == s
  {
    assert forall t :: 0 <= t < 16 ==> w[t] == w[..16][t];
    for i := 16 to 64
      invariant forall t :: 0 <= t < i ==> w[t] == s[t]
    {
      assert Links(s, i);
      w[i] := ExpandWord(w[i - 16], w[i - 15], w[i - 7], w[i - 2]);
    }
  }

  lemma ScheduledLinks(m: seq<Word>)
    requires |m| == 16
    ensures IsSchedule(Scheduled(m)) && Scheduled(m)[..16] == m
  {
    forall t | 16 <= t < 64
      ensures Links(Scheduled(m), t)
    {
    }
  }

  method RunRounds(start: Working, w: array<Word>) returns (v: Working)
    requires w.Length == 64
    ensures v == Rounds(start, w[..], w.Length)
  {
    hide Round, K;
    v := start;
    for i := 0 to w.Length
      invariant v == Rounds(start, w[..], i)
    {
      v := OneRound(v, K()[i], w[i]);
    }
  }

  method Compress(state: array<Word>, block: seq<bv8>)
    requires state.Length == 8 && |block| == 64
    modifies state
    ensures state[..] == HashBlock(old(state[..]), Parse(MessageBits(block)))
  {
    hide MessageBits, Schedule, Rounds, IsSchedule;
    ghost var m := Parse(MessageBits(block));
    ScheduledLinks(m);
    var w := new Word[64](_ => 0);
    LoadBlock(block, w);
    ExpandBlock(w, Scheduled(m));
    var start := Working(state[0], state[1], state[2], state[3], state[4], state[5], state[6], state[7]);
    var v := RunRounds(start, w);
    AddTo(state, v);
  }

  method AddWord(x: Word, y: Word) returns (r: Word)
    ensures r == Sum2(x, y)
  {
    r := x + y;
  }

  method AddTo(state: array<Word>, v: Working)
    requires state.Length == 8
    modifies state
    ensures state[..] == Summed(old(state[..]), v)
  {
    hide Sum2;
    state[0] := AddWord(state[0], v.a);
    state[1] := AddWord(state[1], v.b);
    state[2] := AddWord(state[2], v.c);
    state[3] := AddWord(state[3], v.d);
    state[4] := AddWord(state[4], v.e);
    state[5] := AddWord(state[5], v.f);
    state[6] := AddWord(state[6], v.g);
    state[7] := AddWord(state[7], v.h);
  }

  // ---------------------------------------------------------------- the tail

  // n >> bits, on an unsigned number.
  function ShiftRight(n: nat, bits: nat): nat {
    if bits == 0 then n else ShiftRight(n / 2, bits - 1)
  }

  // static_cast<unsigned char>(n): the low eight bits.
  function ToByte(n: nat): bv8 {
    ByteOf(Binary(n, 8))
  }

  function LengthBytes(n: nat, k: nat): (r: seq<bv8>)
    ensures |r| == k
    decreases k, n
  {
    if k == 0 then [] else LengthBytes(ShiftRight(n, 8), k - 1) + [ToByte(n)]
  }

  function ZeroBytes(k: nat): (r: seq<bv8>)
    ensures |r| == k
  {
    seq(k, _ => 0)
  }

  function TailBlocks(rest: nat): nat {
    if rest + 1 + 8 > 64 then 2 else 1
  }

  // What follows a message whose last, incomplete block has `rest` bytes: the marker byte,
  // zero bytes, the length.
  function Padding(rest: nat, bitLength: nat): (r: seq<bv8>)
    requires rest < 64
    ensures rest + |r| == 64 * TailBlocks(rest)
  {
    [0x80] + ZeroBytes(64 * TailBlocks(rest) - rest - 9) + LengthBytes(bitLength, 8)
  }

  lemma {:induction false} BinarySplits(n: nat, width: nat, bits: nat)
    ensures Binary(n, width + bits) == Binary(ShiftRight(n, bits), width) + Binary(n, bits)
  {
    if bits > 0 {
      BinarySplits(n / 2, width, bits - 1);
    }
  }

  lemma {:induction false} LengthBits(n: nat, k: nat)
    ensures MessageBits(LengthBytes(n, k)) == Binary(n, 8 * k)
    decreases k
  {
    if k > 0 {
      var front := LengthBytes(ShiftRight(n, 8), k - 1);
      LengthBits(ShiftRight(n, 8), k - 1);
      BinarySplits(n, 8 * (k - 1), 8);
      ByteBitsOf(Binary(n, 8));
      assert LengthBytes(n, k)[..k - 1] == front;
    }
  }

  lemma {:induction false} ShiftTwice(n: nat, a: nat, b: nat)
    ensures ShiftRight(ShiftRight(n, a), b) == ShiftRight(n, a + b)
  {
    if a > 0 {
      ShiftTwice(n / 2, a - 1, b);
    }
  }

  lemma {:induction false} LengthByteAt(n: nat, k: nat, i: nat)
    requires i < k
    ensures LengthBytes(n, k)[k - 1 - i] == ToByte(ShiftRight(n, 8 * i))
    decreases k
  {
    if i > 0 {
      LengthByteAt(ShiftRight(n, 8), k - 1, i - 1);
      ShiftTwice(n, 8, 8 * (i - 1));
    }
  }

  lemma {:induction false} ZeroBits(k: nat)
    ensures MessageBits(ZeroBytes(k)) == Zeros(8 * k)
  {
    if k > 0 {
      ZeroBits(k - 1);
      assert ZeroBytes(k)[..k - 1] == ZeroBytes(k - 1);
      ZeroByte();
    }
  }

  lemma ZeroByte()
    ensures ByteBits(0) == Zeros(8) && ByteBits(0x80) == [1] + Zeros(7)
  {
  }

  lemma ZeroCountInBytes(bytes: nat, rest: nat)
    requires rest == bytes % 64
    ensures ZeroCount(8 * bytes) == 7 + 8 * (64 * TailBlocks(rest) - rest - 9)
  {
    var whole := bytes / 64;
    var zeros := 64 * TailBlocks(rest) - rest - 9;
    ZeroCountIs(8 * bytes, 7 + 8 * zeros, whole + TailBlocks(rest) - 1);
  }

  lemma ZeroCountIs(l: nat, k: nat, q: nat)
    requires l + 1 + k == 512 * q + 448 && k < 512
    ensures ZeroCount(l) == k
  {
    Remainder(447 - l, 0 - q, k);
  }

  lemma Remainder(n: int, q: int, r: nat)
    requires n == 512 * q + r && r < 512
    ensures n % 512 == r
  {
  }

  lemma TailBits(zeros: nat, n: nat)
    ensures MessageBits([0x80] + ZeroBytes(zeros) + LengthBytes(n, 8)) == [1] + Zeros(7 + 8 * zeros) + Binary(n, 64)
  {
    MessageBitsConcat([0x80] + ZeroBytes(zeros), LengthBytes(n, 8));
    MessageBitsConcat([0x80], ZeroBytes(zeros));
    OneByte(0x80);
    ZeroByte();
    ZeroBits(zeros);
    LengthBits(n, 8);
    assert Zeros(7) + Zeros(8 * zeros) == Zeros(7 + 8 * zeros);
  }

  lemma PadBits(message: seq<bv8>, zeros: nat, padding: seq<bv8>)
    requires ZeroCount(8 * |message|) == 7 + 8 * zeros
    requires padding == [0x80] + ZeroBytes(zeros) + LengthBytes(8 * |message|, 8)
    ensures MessageBits(message + padding) == Padded(MessageBits(message))
  {
    var bits, l := MessageBits(message), 8 * |message|;
    assert |bits| == l;
    MessageBitsConcat(message, padding);
    TailBits(zeros, l);
    var marker, zeroBits, length := [1 as bv1], Zeros(7 + 8 * zeros), Binary(l, 64);
    Regroup(bits, marker + zeroBits, length);
    Regroup(bits, marker, zeroBits);
    assert Padded(bits) == bits + [1] + Zeros(7 + 8 * zeros) + Binary(l, 64);
  }

  // The bytes that the code hashes are the padded message of section 5.1.1.
  lemma PaddingPads(message: seq<bv8>, padding: seq<bv8>)
    requires padding == Padding(|message| % 64, 8 * |message|)
    ensures MessageBits(message + padding) == Padded(MessageBits(message))
  {
    var rest := |message| % 64;
    ZeroCountInBytes(|message|, rest);
    PadBits(message, 64 * TailBlocks(rest) - rest - 9, padding);
  }

  lemma PaddingAt(rest: nat, n: nat, j: nat)
    requires rest < 64 && rest <= j < 64 * TailBlocks(rest)
    ensures Padding(rest, n)[j - rest]
         == if j == rest then 0x80
            else if j < 64 * TailBlocks(rest) - 8 then 0
            else ToByte(ShiftRight(n, 8 * (64 * TailBlocks(rest) - 1 - j)))
  {
    hide LengthBytes, ShiftRight, ToByte;
    var end := 64 * TailBlocks(rest);
    Concatenated(0x80, ZeroBytes(end - rest - 9), LengthBytes(n, 8), j - rest);
    if j >= end - 8 {
      LengthByteAt(n, 8, end - 1 - j);
    }
  }

  lemma Concatenated(b: bv8, s: seq<bv8>, t: seq<bv8>, i: nat)
    requires i < 1 + |s| + |t|
    ensures ([b] + s + t)[i] == if i == 0 then b else if i <= |s| then s[i - 1] else t[i - 1 - |s|]
  {
  }

  // The message's last bytes and the marker, over an array of zeros.
  method CopyRest(tail: array<bv8>, rest: seq<bv8>)
    requires tail.Length == 128 && |rest| < 64 && forall j :: 0 <= j < 128 ==> tail[j] == 0
    modifies tail
    ensures forall j :: 0 <= j < 128 ==> tail[j] == if j < |rest| then rest[j] else if j == |rest| then 0x80 else 0
  {
    for i := 0 to |rest|
      invariant forall j :: 0 <= j < 128 ==> tail[j] == if j < i then rest[j] else 0
    {
      tail[i] := rest[i];
    }
    tail[|rest|] := 0x80;
  }

  method BuildTail(rest: seq<bv8>, bitLength: nat) returns (tail: array<bv8>, blocks: nat)
    requires |rest| < 64
    ensures fresh(tail) && tail.Length == 128 && blocks == TailBlocks(|rest|)
    ensures tail[..64 * blocks] == rest + Padding(|rest|, bitLength)
  {
    hide Padding, LengthBytes, ToByte, ShiftRight;
    tail := new bv8[128](_ => 0);
    CopyRest(tail, rest);
    blocks := if |rest| + 1 + 8 > 64 then 2 else 1;
    ghost var bytes := rest + Padding(|rest|, bitLength);
    forall j | |rest| <= j < 64 * blocks - 8
      ensures tail[j] == bytes[j]
    {
      PaddingAt(|rest|, bitLength, j);
    }
    for i := 0 to 8
      invariant forall j :: 0 <= j < 64 * blocks - 8 || 64 * blocks - i <= j < 64 * blocks ==> tail[j] == bytes[j]
    {
      PaddingAt(|rest|, bitLength, 64 * blocks - 1 - i);
      tail[64 * blocks - 1 - i] := ToByte(ShiftRight(bitLength, 8 * i));
    }
  }

  // ---------------------------------------------------------------- the digest

  lemma HashFirst(h: seq<Word>, bytes: seq<bv8>)
    requires |h| == 8 && |bytes| >= 64
    ensures HashBlocks(h, MessageBits(bytes))
         == HashBlocks(HashBlock(h, Parse(MessageBits(bytes[..64]))), MessageBits(bytes[64..]))
  {
    hide HashBlock, Parse, MessageBits;
    MessageBitsConcat(bytes[..64], bytes[64..]);
    assert bytes == bytes[..64] + bytes[64..];
    var bits := MessageBits(bytes);
    assert bits[..512] == MessageBits(bytes[..64]) && bits[512..] == MessageBits(bytes[64..]);
  }

  const HEX := "0123456789abcdef"

  // w >> 4 * k
  function Nibbles(w: Word, k: nat): Word {
    if k == 0 then w else Nibbles(w >> 4, k - 1)
  }

  lemma NibblesShift(w: Word)
    ensures Nibbles(w, 1) == w >> 4 && Nibbles(w, 2) == w >> 8 && Nibbles(w, 3) == w >> 12 && Nibbles(w, 4) == w >> 16
  {
  }

  function WordHex(w: Word, digits: nat): (r: string)
    ensures |r| == digits
    decreases digits
  {
    if digits == 0 then "" else WordHex(w >> 4, digits - 1) + [HEX[(w & 0xF) as int]]
  }

  function Hex(words: seq<Word>): (r: string)
    ensures |r| == 8 * |words|
  {
    if words == [] then "" else Hex(words[..|words| - 1]) + WordHex(words[|words| - 1], 8)
  }

  predicate LowercaseHex(s: string) {
    forall i :: 0 <= i < |s| ==> '0' <= s[i] <= '9' || 'a' <= s[i] <= 'f'
  }

  // The sixteen characters, by value.
  lemma HexByValue(n: nat)
    requires n < 16
    ensures HEX[n] as int == if n < 10 then '0' as int + n else 'a' as int + n - 10
  {
  }

  // Reading the text again: the value of a digit, and of a string of digits.
  function ReadDigit(c: char): Word {
    if '0' <= c <= '9' then (c as int - '0' as int) as bv32
    else if 'a' <= c <= 'f' then (c as int - 'a' as int + 10) as bv32
    else 0
  }

  function ReadWord(s: string): Word {
    if s == "" then 0 else (ReadWord(s[..|s| - 1]) << 4) | ReadDigit(s[|s| - 1])
  }

  lemma {:induction false} WordHexIsHex(w: Word, digits: nat)
    ensures LowercaseHex(WordHex(w, digits))
    decreases digits
  {
    if digits > 0 {
      WordHexIsHex(w >> 4, digits - 1);
      HexByValue((w & 0xF) as int);
    }
  }

  lemma {:induction false} WordHexAt(w: Word, digits: nat, k: nat)
    requires k < digits
    ensures WordHex(w, digits)[digits - 1 - k] == HEX[(Nibbles(w, k) & 0xF) as int]
    decreases digits
  {
    if k > 0 {
      WordHexAt(w >> 4, digits - 1, k - 1);
    }
  }

  // The eight digits of a word, each four bits of it from the top.
  lemma WordDigits(w: Word)
    ensures WordHex(w, 8) == [HEX[((w >> 28) & 0xF) as int], HEX[((w >> 24) & 0xF) as int],
                              HEX[((w >> 20) & 0xF) as int], HEX[((w >> 16) & 0xF) as int],
                              HEX[((w >> 12) & 0xF) as int], HEX[((w >> 8) & 0xF) as int],
                              HEX[((w >> 4) & 0xF) as int], HEX[(w & 0xF) as int]]
  {
    hide WordHex;
    NibblesShift(w);
    NibblesShift(w >> 16);
    NibblesSplit(w, 4, 1);
    NibblesSplit(w, 4, 2);
    NibblesSplit(w, 4, 3);
    ShiftFurther(w);
    assert Nibbles(w, 0) == w;
    hide Nibbles;
    WordHexAt(w, 8, 0);
    WordHexAt(w, 8, 1);
    WordHexAt(w, 8, 2);
    WordHexAt(w, 8, 3);
    WordHexAt(w, 8, 4);
    WordHexAt(w, 8, 5);
    WordHexAt(w, 8, 6);
    WordHexAt(w, 8, 7);
  }

  lemma ShiftFurther(w: Word)
    ensures (w >> 16) >> 4 == w >> 20 && (w >> 16) >> 8 == w >> 24 && (w >> 16) >> 12 == w >> 28
  {
  }

  lemma {:induction false} HexIsHex(words: seq<Word>)
    ensures LowercaseHex(Hex(words))
  {
    if words != [] {
      HexIsHex(words[..|words| - 1]);
      WordHexIsHex(words[|words| - 1], 8);
    }
  }

  lemma DigitReads(x: Word)
    requires x < 16
    ensures ReadDigit(HEX[x as int]) == x
  {
    HexByValue(x as int);
  }

  lemma NibbleAndRest(w: Word)
    ensures ((w >> 4) << 4) | (w & 0xF) == w && w & 0xF < 16
  {
  }

  lemma {:induction false} WordReads(w: Word, digits: nat)
    requires Nibbles(w, digits) == 0
    ensures ReadWord(WordHex(w, digits)) == w
    decreases digits
  {
    hide ReadDigit;
    if digits > 0 {
      WordReads(w >> 4, digits - 1);
      NibbleAndRest(w);
      DigitReads(w & 0xF);
      assert WordHex(w, digits)[..digits - 1] == WordHex(w >> 4, digits - 1);
    }
  }

  lemma AllNibbles(w: Word)
    ensures Nibbles(w, 8) == 0
  {
    NibblesShift(w);
    NibblesShift(w >> 16);
    NibblesSplit(w, 4, 4);
  }

  lemma {:induction false} NibblesSplit(w: Word, a: nat, b: nat)
    ensures Nibbles(w, a + b) == Nibbles(Nibbles(w, a), b)
  {
    if a > 0 {
      NibblesSplit(w >> 4, a - 1, b);
    }
  }

  // Eight digits for each word, in their order.
  lemma {:induction false} HexAt(words: seq<Word>, i: nat)
    requires i < |words|
    ensures Hex(words)[8 * i..8 * i + 8] == WordHex(words[i], 8)
  {
    hide WordHex;
    var n := |words| - 1;
    if i == n {
      assert Hex(words)[8 * n..8 * n + 8] == WordHex(words[n], 8);
    } else {
      HexAt(words[..n], i);
      assert Hex(words)[8 * i..8 * i + 8] == Hex(words[..n])[8 * i..8 * i + 8];
    }
  }

  // The text of each word, read as a hexadecimal number, is the word again.
  lemma HexReadsBack(words: seq<Word>, i: nat)
    requires i < |words|
    ensures ReadWord(Hex(words)[8 * i..8 * i + 8]) == words[i]
  {
    hide WordHex, Nibbles, ReadWord, Hex;
    HexAt(words, i);
    AllNibbles(words[i]);
    WordReads(words[i], 8);
  }

  // The printed text loses nothing: it determines the words.
  lemma HexInjective(words: seq<Word>, others: seq<Word>)
    requires Hex(words) == Hex(others)
    ensures words == others
  {
    hide Hex, ReadWord;
    assert |words| == |others|;
    forall i | 0 <= i < |words|
      ensures words[i] == others[i]
    {
      HexReadsBack(words, i);
      HexReadsBack(others, i);
    }
  }

  method Digit(word: Word, k: nat) returns (c: char)
    requires k < 8
    ensures c == WordHex(word, 8)[7 - k]
  {
    WordHexAt(word, 8, k);
    c := HEX[(Nibbles(word, k) & 0xF) as int];
  }

  // The inner loop: (word >> shift) & 0xF for shift 28, 24, ..., 0.
  method PrintWord(word: Word) returns (out: string)
    ensures out == WordHex(word, 8)
  {
    ghost var hex := WordHex(word, 8);
    out := "";
    var k := 8;
    while k > 0
      invariant 0 <= k <= 8 && out == hex[..8 - k]
    {
      k := k - 1;
      var c := Digit(word, k);
      out := out + [c];
    }
  }

  method PrintWords(state: array<Word>) returns (out: string)
    ensures out == Hex(state[..])
  {
    out := "";
    for i := 0 to state.Length
      invariant out == Hex(state[..i])
    {
      var digits := PrintWord(state[i]);
      assert state[..i + 1][..i] == state[..i];
      out := out + digits;
    }
    assert state[..state.Length] == state[..];
  }

  // One block compressed is one block of the recursion done.
  method CompressNext(state: array<Word>, block: seq<bv8>, ghost bytes: seq<bv8>)
    requires state.Length == 8 && |bytes| >= 64 && block == bytes[..64]
    modifies state
    ensures HashBlocks(state[..], MessageBits(bytes[64..])) == HashBlocks(old(state[..]), MessageBits(bytes))
  {
    hide HashBlocks, MessageBits, HashBlock, Parse;
    HashFirst(state[..], bytes);
    Compress(state, block);
  }

  lemma HashNothing(h: seq<Word>, bytes: seq<bv8>)
    requires |h| == 8 && bytes == []
    ensures HashBlocks(h, MessageBits(bytes)) == h
  {
  }

  method CompressTail(state: array<Word>, rest: seq<bv8>, bitLength: nat, ghost bytes: seq<bv8>)
    requires state.Length == 8 && |rest| < 64 && bytes == rest + Padding(|rest|, bitLength)
    modifies state
    ensures state[..] == HashBlocks(old(state[..]), MessageBits(bytes))
  {
    hide HashBlocks, MessageBits, LengthBytes;
    var tail, blocks := BuildTail(rest, bitLength);
    assert tail[..64] == bytes[..64];
    CompressNext(state, tail[..64], bytes);
    if blocks == 2 {
      assert tail[64..128] == bytes[64..][..64];
      CompressNext(state, tail[64..128], bytes[64..]);
      HashNothing(state[..], bytes[64..][64..]);
    } else {
      HashNothing(state[..], bytes[64..]);
    }
  }

  method CompressFront(state: array<Word>, rest: seq<bv8>, ghost padding: seq<bv8>)
    requires state.Length == 8 && |rest| >= 64
    modifies state
    ensures HashBlocks(state[..], MessageBits(rest[64..] + padding))
         == HashBlocks(old(state[..]), MessageBits(rest + padding))
  {
    hide HashBlocks, MessageBits;
    assert (rest + padding)[..64] == rest[..64] && (rest + padding)[64..] == rest[64..] + padding;
    CompressNext(state, rest[..64], rest + padding);
  }

  // The loop over whole blocks: `rest` is what the pointer and the remaining count describe.
  method CompressWhole(state: array<Word>, data: seq<bv8>, ghost padding: seq<bv8>) returns (rest: seq<bv8>)
    requires state.Length == 8
    modifies state
    ensures |rest| == |data| % 64
    ensures HashBlocks(state[..], MessageBits(rest + padding))
         == HashBlocks(old(state[..]), MessageBits(data + padding))
  {
    hide HashBlocks, MessageBits;
    ghost var digest := HashBlocks(state[..], MessageBits(data + padding));
    ghost var done := 0;
    rest := data;
    while |rest| >= 64
      invariant |data| == 64 * done + |rest|
      invariant HashBlocks(state[..], MessageBits(rest + padding)) == digest
      decreases |rest|
    {
      CompressFront(state, rest, padding);
      rest, done := rest[64..], done + 1;
    }
  }

  method HashPadded(state: array<Word>, data: seq<bv8>, bitLength: nat, ghost padding: seq<bv8>)
    requires state.Length == 8 && padding == Padding(|data| % 64, bitLength)
    modifies state
    ensures state[..] == HashBlocks(old(state[..]), MessageBits(data + padding))
  {
    hide HashBlocks, MessageBits, Padding;
    var rest := CompressWhole(state, data, padding);
    CompressTail(state, rest, bitLength, rest + padding);
  }

  // The 64-bit product does not wrap on messages the standard admits.
  method BitLength(size: nat) returns (bitLength: nat)
    requires size < 0x2000_0000_0000_0000
    ensures bitLength == 8 * size
  {
    bitLength := size * 8 % 0x1_0000_0000_0000_0000;
  }

  method HashMessage(state: array<Word>, data: seq<bv8>, ghost padded: seq<bv8>)
    requires state.Length == 8 && |data| < 0x2000_0000_0000_0000
    requires padded == data + Padding(|data| % 64, 8 * |data|)
    modifies state
    ensures state[..] == HashBlocks(old(state[..]), MessageBits(padded))
  {
    var bitLength := BitLength(|data|);
    HashPadded(state, data, bitLength, Padding(|data| % 64, bitLength));
  }

  method InitialState() returns (state: array<Word>)
    ensures fresh(state) && state.Length == 8 && state[..] == H0()
  {
    state := new Word[8](i requires 0 <= i < 8 => H0()[i]);
  }

  /** The digest of a byte string, in hexadecimal, is the one FIPS 180-4 defines for its bits. */
  method Sha256Hex(data: seq<bv8>) returns (out: string)
    requires |data| < 0x2000_0000_0000_0000
    ensures out == Hex(Digest(MessageBits(data)))
    ensures |out| == 64 && LowercaseHex(out)
  {
    var state := InitialState();
    ghost var padding := Padding(|data| % 64, 8 * |data|);
    PaddingPads(data, padding);
    HashMessage(state, data, data + padding);
    out := PrintWords(state);
    HexIsHex(state[..]);
  }
}
