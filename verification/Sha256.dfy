/**
 SHA-256 as sections 5 and 6.2 of FIPS 180-4 define it, and the loops of `_standalone_sha256_hex` in
 omg_cli/deny.py that compute it.
 */
module Sha256 {
  import opened Options
  import opened Sha256Constants

  type Byte = b: int | 0 <= b < 256

  type Word = bv32

  // ---------- words ----------

  /** ROTR of section 3.2 */
  function Ror(x: Word, n: Word): Word
    requires 0 < n < 32
  {
    (x >> n) | (x << (32 - n))
  }

  function Ch(x: Word, y: Word, z: Word): Word { (x & y) ^ (!x & z) }
  function Maj(x: Word, y: Word, z: Word): Word { (x & y) ^ (x & z) ^ (y & z) }
  function Xor3(x: Word, y: Word, z: Word): Word { x ^ y ^ z }
  function BigSigma0(x: Word): Word { Xor3(Ror(x, 2), Ror(x, 13), Ror(x, 22)) }
  function BigSigma1(x: Word): Word { Xor3(Ror(x, 6), Ror(x, 11), Ror(x, 25)) }
  function SmallSigma0(x: Word): Word { Xor3(Ror(x, 7), Ror(x, 18), x >> 3) }
  function SmallSigma1(x: Word): Word { Xor3(Ror(x, 17), Ror(x, 19), x >> 10) }

  /** Addition modulo 2^32 */
  function Add(x: Word, y: Word): Word { x + y }

  function Sum4(x: Word, y: Word, z: Word, w: Word): Word { x + y + z + w }
  function Sum5(x: Word, y: Word, z: Word, w: Word, v: Word): Word { x + y + z + w + v }

  function ToWord(n: int): Word
    requires 0 <= n < 0x1_0000_0000
  {
    n as bv32
  }

  function KWord(t: nat): Word
    requires t < 64
  {
    ConstantsAreRoots();
    ToWord(K[t])
  }

  // ---------- section 6.2.2 ----------

  datatype Work = Work(a: Word, b: Word, c: Word, d: Word, e: Word, f: Word, g: Word, h: Word)

  /** The message schedule of one block. */
  function Schedule(block: seq<Word>, t: nat): Word
    requires |block| == 16
  {
    if t < 16 then block[t]
    else
      Sum4(SmallSigma1(Schedule(block, t - 2)), Schedule(block, t - 7), SmallSigma0(Schedule(block, t - 15)),
           Schedule(block, t - 16))
  }

  function Round(v: Work, k: Word, w: Word): Work {
    var t1 := Sum5(v.h, BigSigma1(v.e), Ch(v.e, v.f, v.g), k, w);
    var t2 := Add(BigSigma0(v.a), Maj(v.a, v.b, v.c));
    Work(Add(t1, t2), v.a, v.b, v.c, Add(v.d, t1), v.e, v.f, v.g)
  }

  function Rounds(v: Work, block: seq<Word>, t: nat): Work
    requires |block| == 16 && t <= 64
  {
    if t == 0 then v else Round(Rounds(v, block, t - 1), KWord(t - 1), Schedule(block, t - 1))
  }

  function AddWork(x: Work, y: Work): Work {
    Work(Add(x.a, y.a), Add(x.b, y.b), Add(x.c, y.c), Add(x.d, y.d), Add(x.e, y.e), Add(x.f, y.f), Add(x.g, y.g),
         Add(x.h, y.h))
  }

  function Compress(hash: Work, block: seq<Word>): Work
    requires |block| == 16
  {
    AddWork(Rounds(hash, block, 64), hash)
  }

  function BigEndianWord(bytes: seq<Byte>): Word
    requires |bytes| == 4
  {
    var b0: int, b1: int, b2: int, b3: int := bytes[0], bytes[1], bytes[2], bytes[3];
    ToWord(b0 * 0x1000000 + b1 * 0x10000 + b2 * 0x100 + b3)
  }

  function BlockAt(message: seq<Byte>, offset: nat): (block: seq<Word>)
    requires offset + 64 <= |message|
    ensures |block| == 16
  {
    seq(16, i requires 0 <= i < 16 => BigEndianWord(message[offset + 4 * i..offset + 4 * i + 4]))
  }

  function InitialHash(): Work {
    Work(ToWord(H0[0]), ToWord(H0[1]), ToWord(H0[2]), ToWord(H0[3]), ToWord(H0[4]), ToWord(H0[5]), ToWord(H0[6]),
         ToWord(H0[7]))
  }

  /** The hash value after the first n blocks. */
  function HashAfter(message: seq<Byte>, n: nat): Work
    requires 64 * n <= |message|
  {
    if n == 0 then InitialHash() else Compress(HashAfter(message, n - 1), BlockAt(message, 64 * (n - 1)))
  }

  // ---------- section 5.1.1 ----------

  /** n as `width` bytes, most significant first. */
  function BigEndian(n: nat, width: nat): (bytes: seq<Byte>)
    ensures |bytes| == width
    decreases width
  {
    if width == 0 then [] else BigEndian(n / 256, width - 1) + [n % 256]
  }

  function FromBigEndian(bytes: seq<Byte>): nat {
    if |bytes| == 0 then 0 else FromBigEndian(bytes[..|bytes| - 1]) * 256 + bytes[|bytes| - 1]
  }

  function Pow256(k: nat): nat { if k == 0 then 1 else 256 * Pow256(k - 1) }

  function Zeros(n: nat): (z: seq<Byte>)
    ensures |z| == n && forall i :: 0 <= i < n ==> z[i] == 0
  {
    seq(n, i => 0)
  }

  predicate LeavesRoom(length: nat) { length % 64 == 56 }

  /** The least count of zero bytes that leaves room for the length in a whole block. */
  function ZeroCount(length: nat): (k: nat)
    ensures k < 64 && LeavesRoom(length + 1 + k)
    ensures forall j: nat :: length + 1 <= j < length + 1 + k ==> !LeavesRoom(j)
  {
    (55 - length) % 64
  }

  function Padded(message: seq<Byte>): seq<Byte> {
    message + [0x80] + Zeros(ZeroCount(|message|)) + BigEndian(8 * |message|, 8)
  }

  lemma {:induction false} BigEndianBack(n: nat, width: nat)
    requires n < Pow256(width)
    ensures FromBigEndian(BigEndian(n, width)) == n
  {
    if width > 0 {
      assert n / 256 < Pow256(width - 1);
      BigEndianBack(n / 256, width - 1);
      var bytes := BigEndian(n, width);
      assert bytes[..width - 1] == BigEndian(n / 256, width - 1);
    }
  }

  lemma PaddedIsWhole(message: seq<Byte>)
    ensures |Padded(message)| % 64 == 0 && |message| + 9 <= |Padded(message)| < |message| + 9 + 64
  {
    hide BigEndian;
  }

  lemma EightBytes()
    ensures Pow256(8) == 0x1_0000_0000_0000_0000
  {
    assert Pow256(4) == 0x1_0000_0000;
  }

  /** No two messages below 2^61 bytes are padded to the same one. */
  lemma PaddingIsInjective(a: seq<Byte>, b: seq<Byte>)
    requires 8 * |a| < 0x1_0000_0000_0000_0000 && 8 * |b| < 0x1_0000_0000_0000_0000
    requires Padded(a) == Padded(b)
    ensures a == b
  {
    hide BigEndian, FromBigEndian, Pow256, Zeros, ZeroCount;
    EightBytes();
    var p, q := Padded(a), Padded(b);
    assert p[|p| - 8..] == BigEndian(8 * |a|, 8);
    assert q[|q| - 8..] == BigEndian(8 * |b|, 8);
    BigEndianBack(8 * |a|, 8);
    BigEndianBack(8 * |b|, 8);
    assert p[..|a|] == a && q[..|b|] == b;
  }

  /** The message, one bit, zeros, and its length in bits at the end of the last block. */
  lemma PaddedExactly(message: seq<Byte>)
    requires 8 * |message| < 0x1_0000_0000_0000_0000
    ensures var p, n := Padded(message), |message|;
      && n + 9 <= |p| < n + 73 && |p| % 64 == 0 && p[..n] == message && p[n] == 0x80
      && (forall i :: n < i < |p| - 8 ==> p[i] == 0) && FromBigEndian(p[|p| - 8..]) == 8 * n
  {
    hide BigEndian, FromBigEndian, Pow256;
    PaddedIsWhole(message);
    EightBytes();
    BigEndianBack(8 * |message|, 8);
    var p := Padded(message);
    assert p[|p| - 8..] == BigEndian(8 * |message|, 8);
  }

  // ---------- the digest ----------

  function HexDigit(n: nat): char
    requires n < 16
  {
    "0123456789abcdef"[n]
  }

  /** `format(n, "08x")` and its shorter kin. */
  function Hex(n: nat, width: nat): (s: string)
    ensures |s| == width
    decreases width
  {
    if width == 0 then "" else Hex(n / 16, width - 1) + [HexDigit(n % 16)]
  }

  function WorkHex(v: Work): string {
    Hex(v.a as nat, 8) + Hex(v.b as nat, 8) + Hex(v.c as nat, 8) + Hex(v.d as nat, 8)
    + Hex(v.e as nat, 8) + Hex(v.f as nat, 8) + Hex(v.g as nat, 8) + Hex(v.h as nat, 8)
  }

  /** The digest of the standard; None where the code raises because the length does not fit. */
  function Digest(message: seq<Byte>): Option<string> {
    if 8 * |message| >= 0x1_0000_0000_0000_0000 then None
    else
      var padded := Padded(message);
      PaddedIsWhole(message);
      Some(WorkHex(HashAfter(padded, |padded| / 64)))
  }

  /** There is a digest exactly where the length in bits fits eight bytes. */
  lemma DigestExists(message: seq<Byte>)
    ensures Digest(message).Some? <==> |message| < 0x2000_0000_0000_0000
  {}

  // ---------- the code ----------

  /** `_rotate_right`: the shifts are unbounded, here of 64 bits that lose nothing, and the mask cuts back to 32. */
  function RotateRight(value: Word, amount: bv64): Word
    requires 0 < amount < 32
  {
    var wide := value as bv64;
    (((wide >> amount) | (wide << (32 - amount))) & 0xFFFFFFFF) as bv32
  }

  lemma RotationBits(x: bv32, n: bv32)
    requires 0 < n < 32
    ensures ((((x as bv64) >> (n as bv64)) | ((x as bv64) << (32 - (n as bv64)))) & 0xFFFFFFFF) as bv32
      == (x >> n) | (x << (32 - n))
  {}

  lemma Rotation(x: Word, n: Word, amount: bv64)
    requires 0 < n < 32 && amount == n as bv64
    ensures RotateRight(x, amount) == Ror(x, n)
  {
    RotationBits(x, n);
  }

  // The sigmas and the choices as the code spells them.

  function CodeSigma0(left: Word): Word { Xor3(RotateRight(left, 7), RotateRight(left, 18), left >> 3) }
  function CodeSigma1(right: Word): Word { Xor3(RotateRight(right, 17), RotateRight(right, 19), right >> 10) }
  function CodeBig1(e: Word): Word { Xor3(RotateRight(e, 6), RotateRight(e, 11), RotateRight(e, 25)) }
  function CodeBig0(a: Word): Word { Xor3(RotateRight(a, 2), RotateRight(a, 13), RotateRight(a, 22)) }

  lemma SigmasAre(x: Word)
    ensures CodeSigma0(x) == SmallSigma0(x) && CodeSigma1(x) == SmallSigma1(x)
  {
    hide RotateRight, Ror, Xor3;
    Rotation(x, 7, 7);
    Rotation(x, 18, 18);
    Rotation(x, 17, 17);
    Rotation(x, 19, 19);
  }

  lemma BigSigmasAre(x: Word)
    ensures CodeBig1(x) == BigSigma1(x) && CodeBig0(x) == BigSigma0(x)
  {
    hide RotateRight, Ror, Xor3;
    Rotation(x, 6, 6);
    Rotation(x, 11, 11);
    Rotation(x, 25, 25);
    Rotation(x, 2, 2);
    Rotation(x, 13, 13);
    Rotation(x, 22, 22);
  }

  // The sums as the code writes them: unbounded, then cut back by the mask.  Up to five words stay below 2^35.

  function Masked2(a: Word, b: Word): Word { (((a as bv64) + (b as bv64)) & 0xFFFFFFFF) as bv32 }

  function Masked4(a: Word, b: Word, c: Word, d: Word): Word {
    (((a as bv64) + (b as bv64) + (c as bv64) + (d as bv64)) & 0xFFFFFFFF) as bv32
  }

  function Masked5(a: Word, b: Word, c: Word, d: Word, e: Word): Word {
    (((a as bv64) + (b as bv64) + (c as bv64) + (d as bv64) + (e as bv64)) & 0xFFFFFFFF) as bv32
  }

  lemma SumBits2(a: bv32, b: bv32)
    ensures (((a as bv64) + (b as bv64)) & 0xFFFFFFFF) as bv32 == a + b
    ensures a + b == b + a
  {}

  lemma SumBits4(a: bv32, b: bv32, c: bv32, d: bv32)
    ensures (((a as bv64) + (b as bv64) + (c as bv64) + (d as bv64)) & 0xFFFFFFFF) as bv32 == d + c + b + a
  {}

  lemma SumBits5(a: bv32, b: bv32, c: bv32, d: bv32, e: bv32)
    ensures (((a as bv64) + (b as bv64) + (c as bv64) + (d as bv64) + (e as bv64)) & 0xFFFFFFFF) as bv32
      == a + b + c + d + e
    ensures (a as bv64) + (b as bv64) + (c as bv64) + (d as bv64) + (e as bv64) < 0x8_0000_0000
  {}

  /** Masking the unbounded sum of two words is addition modulo 2^32. */
  lemma Masked2Adds(a: Word, b: Word)
    ensures Masked2(a, b) == Add(a, b) && Masked2(a, b) == Add(b, a)
  {
    SumBits2(a, b);
  }

  /** The code adds the same four words the other way round. */
  lemma Masked4Adds(a: Word, b: Word, c: Word, d: Word)
    ensures Masked4(a, b, c, d) == Sum4(d, c, b, a)
  {
    SumBits4(a, b, c, d);
  }

  lemma Masked5Adds(a: Word, b: Word, c: Word, d: Word, e: Word)
    ensures Masked5(a, b, c, d, e) == Sum5(a, b, c, d, e)
  {
    SumBits5(a, b, c, d, e);
  }

  /** The words of one block, extended to 64. */
  method ExtendWords(block: seq<Word>) returns (words: seq<Word>)
    requires |block| == 16
    ensures |words| == 64 && forall t :: 0 <= t < 64 ==> words[t] == Schedule(block, t)
  {
    hide CodeSigma0, CodeSigma1, SmallSigma0, SmallSigma1, Sum4, Masked4;
    words := block;
    for index := 16 to 64
      invariant |words| == index && forall t :: 0 <= t < index ==> words[t] == Schedule(block, t)
    {
      var left, right := words[index - 15], words[index - 2];
      var sigma0, sigma1 := CodeSigma0(left), CodeSigma1(right);
      SigmasAre(left);
      SigmasAre(right);
      Masked4Adds(words[index - 16], sigma0, words[index - 7], sigma1);
      words := words + [Masked4(words[index - 16], sigma0, words[index - 7], sigma1)];
    }
  }

  /** The 64 rounds on the eight working variables. */
  method RunRounds(digest: Work, block: seq<Word>, words: seq<Word>) returns (r: Work)
    requires |block| == 16 && |words| == 64 && forall t :: 0 <= t < 64 ==> words[t] == Schedule(block, t)
    ensures r == Rounds(digest, block, 64)
  {
    hide CodeBig0, CodeBig1, BigSigma0, BigSigma1, Ch, Maj, Schedule, KWord, Add, Sum5, Masked2, Masked5;
    var a, b, c, d, e, f, g, h := digest.a, digest.b, digest.c, digest.d, digest.e, digest.f, digest.g, digest.h;
    for index := 0 to 64
      invariant Work(a, b, c, d, e, f, g, h) == Rounds(digest, block, index)
    {
      BigSigmasAre(e);
      BigSigmasAre(a);
      Masked5Adds(h, CodeBig1(e), Ch(e, f, g), KWord(index), words[index]);
      var temp1 := Masked5(h, CodeBig1(e), Ch(e, f, g), KWord(index), words[index]);
      Masked2Adds(CodeBig0(a), Maj(a, b, c));
      var temp2 := Masked2(CodeBig0(a), Maj(a, b, c));
      Masked2Adds(d, temp1);
      Masked2Adds(temp1, temp2);
      h, g, f, e, d, c, b, a := g, f, e, Masked2(d, temp1), c, b, a, Masked2(temp1, temp2);
    }
    r := Work(a, b, c, d, e, f, g, h);
  }

  /** The new digest of a block. */
  function MaskedWork(x: Work, y: Work): Work {
    Work(Masked2(x.a, y.a), Masked2(x.b, y.b), Masked2(x.c, y.c), Masked2(x.d, y.d),
         Masked2(x.e, y.e), Masked2(x.f, y.f), Masked2(x.g, y.g), Masked2(x.h, y.h))
  }

  lemma MaskedWorkAdds(x: Work, y: Work)
    ensures MaskedWork(x, y) == AddWork(y, x)
  {
    hide Masked2, Add;
    Masked2Adds(x.a, y.a);
    Masked2Adds(x.b, y.b);
    Masked2Adds(x.c, y.c);
    Masked2Adds(x.d, y.d);
    Masked2Adds(x.e, y.e);
    Masked2Adds(x.f, y.f);
    Masked2Adds(x.g, y.g);
    Masked2Adds(x.h, y.h);
  }

  /** The padding loop of the code. */
  method PadMessage(body: seq<Byte>) returns (message: seq<Byte>)
    ensures message == Padded(body)
  {
    hide BigEndian;
    message := body + [0x80];
    ghost var zeros := 0;
    while |message| % 64 != 56
      invariant zeros <= ZeroCount(|body|) && message == body + [0x80] + Zeros(zeros)
      decreases ZeroCount(|body|) - zeros
    {
      assert zeros != ZeroCount(|body|);
      message := message + [0];
      assert Zeros(zeros + 1) == Zeros(zeros) + [0];
      zeros := zeros + 1;
    }
    assert zeros == ZeroCount(|body|) by { assert LeavesRoom(|body| + 1 + zeros); }
    message := message + BigEndian(8 * |body|, 8);
  }

  /** `_standalone_sha256_hex` computes the digest of the standard; None where `to_bytes` raises. */
  method StandaloneSha256Hex(body: seq<Byte>) returns (hex: Option<string>)
    ensures hex == Digest(body)
  {
    hide Rounds, AddWork, MaskedWork, BlockAt, InitialHash, Padded, WorkHex;
    if 8 * |body| >= 0x1_0000_0000_0000_0000 { return None; }
    var message := PadMessage(body);
    PaddedIsWhole(body);
    var digest := InitialHash();
    var offset := 0;
    while offset < |message|
      invariant offset % 64 == 0 && offset <= |message| && digest == HashAfter(message, offset / 64)
    {
      var block := BlockAt(message, offset);
      var words := ExtendWords(block);
      var worked := RunRounds(digest, block, words);
      MaskedWorkAdds(digest, worked);
      digest := MaskedWork(digest, worked);
      offset := offset + 64;
      assert 64 * (offset / 64 - 1) == offset - 64;
    }
    hex := Some(WorkHex(digest));
  }
}
