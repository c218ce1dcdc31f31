// The one-shot definition of SHA-1 in FIPS 180-4, on messages of whole bytes.
// It is written from the standard alone: nothing here mentions a context, a
// 64-byte buffer or an update call.
module Fips180 {

  type Byte = bv8
  type Word = bv32

  // FIPS 180-4 section 2.2.2: rotation of a 32-bit word to the left.
  function RotL(n: nat, x: Word): Word
    requires 0 < n < 32
  {
    (x << n) | (x >> (32 - n))
  }

  // FIPS 180-4 section 4.1.1.
  function Ch(x: Word, y: Word, z: Word): Word { (x & y) ^ (!x & z) }

  function Parity(x: Word, y: Word, z: Word): Word { x ^ y ^ z }

  function Maj(x: Word, y: Word, z: Word): Word { (x & y) ^ (x & z) ^ (y & z) }

  function F(t: nat, x: Word, y: Word, z: Word): Word
    requires t < 80
  {
    if t < 20 then Ch(x, y, z)
    else if t < 40 then Parity(x, y, z)
    else if t < 60 then Maj(x, y, z)
    else Parity(x, y, z)
  }

  // FIPS 180-4 section 4.2.1.
  function K(t: nat): Word
    requires t < 80
  {
    if t < 20 then 0x5a827999
    else if t < 40 then 0x6ed9eba1
    else if t < 60 then 0x8f1bbcdc
    else 0xca62c1d6
  }

  // FIPS 180-4 section 5.3.1.
  const InitialHash: seq<Word> := [0x67452301, 0xefcdab89, 0x98badcfe, 0x10325476, 0xc3d2e1f0]

  function LowByte(v: nat): Byte { (v % 256) as Byte }

  // The octets of v, most significant first (section 3.1, item 3).
  function BigEndian(v: nat, octets: nat): (r: seq<Byte>)
    ensures |r| == octets
  {
    if octets == 0 then [] else BigEndian(v / 256, octets - 1) + [LowByte(v)]
  }

  // The length as a 64-bit block.
  function LengthField(l: nat): (r: seq<Byte>)
    ensures |r| == 8
  {
    BigEndian(l, 8)
  }

  // FIPS 180-4 section 5.1.1: with l = 8 * n bits before it, the 1 bit and k
  // zero bits leave room for exactly the 64-bit length in a 512-bit block.
  predicate LeavesLengthRoom(n: nat, k: nat) {
    (8 * n + 1 + k) % 512 == 448
  }

  function PadZeroBits(n: nat): (k: nat)
    ensures LeavesLengthRoom(n, k)
    ensures k % 8 == 7 && k < 512
  {
    var q := (447 - 8 * n) / 512;
    var k := 447 - 8 * n - 512 * q;
    assert 8 * n + 1 + k == 448 + 512 * (-q);
    k
  }

  // The k chosen is the smallest one, as the standard asks.
  lemma PadZeroBitsIsSmallest(n: nat, j: nat)
    requires LeavesLengthRoom(n, j)
    ensures PadZeroBits(n) <= j
  {
    var k := PadZeroBits(n);
    var p, q := (8 * n + 1 + j) / 512, (8 * n + 1 + k) / 512;
    assert j - k == 512 * (p - q);
  }

  lemma PadFillsBlocks(n: nat)
    ensures (n + 1 + PadZeroBits(n) / 8 + 8) % 64 == 0
  {
    var k := PadZeroBits(n);
    var t := (8 * n + 1 + k) / 512;
    assert n + 1 + k / 8 == 64 * t + 56;
  }

  // The bit 1 and the first seven zero bits are the byte 0x80, the other zero
  // bits are whole bytes, and the 64-bit length closes the padding.
  function Pad(m: seq<Byte>): (r: seq<Byte>)
    ensures |r| % 64 == 0
  {
    PadFillsBlocks(|m|);
    m + [0x80] + seq(PadZeroBits(|m|) / 8, _ => 0) + LengthField(8 * |m| % 0x1_0000_0000_0000_0000)
  }

  // FIPS 180-4 section 5.2.1: the words of a 512-bit block.
  function BlockWord(block: seq<Byte>, t: nat): Word
    requires |block| == 64 && t < 16
  {
    (block[4 * t] as Word << 24) | (block[4 * t + 1] as Word << 16) | (block[4 * t + 2] as Word << 8) | (block[4 * t + 3] as Word)
  }

  // FIPS 180-4 section 6.1.2, step 1: the message schedule.
  function W(block: seq<Byte>, t: nat): Word
    requires |block| == 64 && t < 80
  {
    if t < 16 then BlockWord(block, t)
    else RotL(1, W(block, t - 3) ^ W(block, t - 8) ^ W(block, t - 14) ^ W(block, t - 16))
  }

  datatype Working = Working(a: Word, b: Word, c: Word, d: Word, e: Word)

  // The word T of step 3, where f = F(t, b, c, d), k = K(t) and w = W(t).
  function T(a: Word, f: Word, e: Word, k: Word, w: Word): Word {
    RotL(5, a) + f + e + k + w
  }

  // Step 3 for one t.
  function Round(v: Working, t: nat, w: Word): Working
    requires t < 80
  {
    Working(T(v.a, F(t, v.b, v.c, v.d), v.e, K(t), w), v.a, RotL(30, v.b), v.c, v.d)
  }

  // Step 3 for 0 .. t-1.
  function Rounds(v: Working, block: seq<Byte>, t: nat): Working
    requires |block| == 64 && t <= 80
  {
    if t == 0 then v else Round(Rounds(v, block, t - 1), t - 1, W(block, t - 1))
  }

  // Addition modulo 2^32 (section 3.2).
  function Sum(x: Word, y: Word): Word { x + y }

  // Steps 1 to 4 for one block.
  function Compress(h: seq<Word>, block: seq<Byte>): (r: seq<Word>)
    requires |h| == 5 && |block| == 64
    ensures |r| == 5
  {
    var v := Rounds(Working(h[0], h[1], h[2], h[3], h[4]), block, 80);
    [Sum(h[0], v.a), Sum(h[1], v.b), Sum(h[2], v.c), Sum(h[3], v.d), Sum(h[4], v.e)]
  }

  // The hash value after every whole block of bytes.
  function HashBlocks(bytes: seq<Byte>): (r: seq<Word>)
    requires |bytes| % 64 == 0
    ensures |r| == 5
  {
    if bytes == [] then InitialHash
    else Compress(HashBlocks(bytes[..|bytes| - 64]), bytes[|bytes| - 64..])
  }

  function WordOctets(x: Word): (r: seq<Byte>)
    ensures |r| == 4
  {
    [(x >> 24) as Byte, ((x >> 16) & 0xff) as Byte, ((x >> 8) & 0xff) as Byte, (x & 0xff) as Byte]
  }

  function Digest(h: seq<Word>): (r: seq<Byte>)
    requires |h| == 5
    ensures |r| == 20
  {
    WordOctets(h[0]) + WordOctets(h[1]) + WordOctets(h[2]) + WordOctets(h[3]) + WordOctets(h[4])
  }

  // SHA-1 of a message (the standard defines it for fewer than 2^64 bits).
  function Sha1(m: seq<Byte>): (r: seq<Byte>)
    ensures |r| == 20
  {
    Digest(HashBlocks(Pad(m)))
  }
}
