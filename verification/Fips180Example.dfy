// The two-block example of FIPS 180-2, appendix A.2, worked through by the definition
// of Fips180: the padding, both schedules, the five variables after every twenty
// rounds, the hash value between the blocks, and the digest.
module Fips180Example {
  import opened Fips180

  function FiveRounds(v: Working, block: seq<Byte>, t: nat): Working
    requires |block| == 64 && t <= 75
  {
    var v1 := Round(v, t, W(block, t));
    var v2 := Round(v1, t + 1, W(block, t + 1));
    var v3 := Round(v2, t + 2, W(block, t + 2));
    var v4 := Round(v3, t + 3, W(block, t + 3));
    Round(v4, t + 4, W(block, t + 4))
  }

  lemma FiveOn(v: Working, block: seq<Byte>, t: nat)
    requires |block| == 64 && t <= 75
    ensures Rounds(v, block, t + 5) == FiveRounds(Rounds(v, block, t), block, t)
  {
    assert Rounds(v, block, t + 1) == Round(Rounds(v, block, t), t, W(block, t));
    assert Rounds(v, block, t + 3) == Round(Rounds(v, block, t + 2), t + 2, W(block, t + 2));
  }

  function TwentyRounds(v: Working, block: seq<Byte>, t: nat): Working
    requires |block| == 64 && t <= 60
  {
    FiveRounds(FiveRounds(FiveRounds(FiveRounds(v, block, t), block, t + 5), block, t + 10), block, t + 15)
  }

  lemma TwentyOn(v: Working, block: seq<Byte>, t: nat)
    requires |block| == 64 && t <= 60
    ensures Rounds(v, block, t + 20) == TwentyRounds(Rounds(v, block, t), block, t)
  {
    FiveOn(v, block, t);
    FiveOn(v, block, t + 5);
    FiveOn(v, block, t + 10);
    FiveOn(v, block, t + 15);
  }

  // ---------------------------------------------------------------------
  // The first block.

  const FirstStart := Working(0x67452301, 0xefcdab89, 0x98badcfe, 0x10325476, 0xc3d2e1f0)

  predicate IsFirst(block: seq<Byte>) {
    && |block| == 64
    && BlockWord(block, 0) == 0x61626364 && BlockWord(block, 1) == 0x62636465
    && BlockWord(block, 2) == 0x63646566 && BlockWord(block, 3) == 0x64656667
    && BlockWord(block, 4) == 0x65666768 && BlockWord(block, 5) == 0x66676869
    && BlockWord(block, 6) == 0x6768696a && BlockWord(block, 7) == 0x68696a6b
    && BlockWord(block, 8) == 0x696a6b6c && BlockWord(block, 9) == 0x6a6b6c6d
    && BlockWord(block, 10) == 0x6b6c6d6e && BlockWord(block, 11) == 0x6c6d6e6f
    && BlockWord(block, 12) == 0x6d6e6f70 && BlockWord(block, 13) == 0x6e6f7071
    && BlockWord(block, 14) == 0x80000000 && BlockWord(block, 15) == 0x00000000
  }

  lemma FirstWords0(block: seq<Byte>)
    requires IsFirst(block)
    ensures W(block, 0) == 0x61626364 && W(block, 1) == 0x62636465 && W(block, 2) == 0x63646566
    ensures W(block, 3) == 0x64656667 && W(block, 4) == 0x65666768 && W(block, 5) == 0x66676869
    ensures W(block, 6) == 0x6768696a && W(block, 7) == 0x68696a6b && W(block, 8) == 0x696a6b6c
    ensures W(block, 9) == 0x6a6b6c6d && W(block, 10) == 0x6b6c6d6e && W(block, 11) == 0x6c6d6e6f
    ensures W(block, 12) == 0x6d6e6f70 && W(block, 13) == 0x6e6f7071
    ensures W(block, 14) == 0x80000000 && W(block, 15) == 0x00000000
  {
  }

  lemma FirstWords16(block: seq<Byte>)
    requires IsFirst(block)
    ensures W(block, 16) == 0x0a063a3e && W(block, 17) == 0xd8dadcdf && W(block, 18) == 0xdadcdec0
    ensures W(block, 19) == 0xc8d2b4be && W(block, 20) == 0x6f757b5b && W(block, 21) == 0x757b5967
    ensures W(block, 22) == 0x8da16d70 && W(block, 23) == 0xdaeefaba && W(block, 24) == 0xfaf6cab6
    ensures W(block, 25) == 0xa6fb675a && W(block, 26) == 0x0c604cc8 && W(block, 27) == 0x604cc02c
    ensures W(block, 28) == 0x49c0e6e2 && W(block, 29) == 0x2ee8cbbc
    ensures W(block, 30) == 0xcfd72ec4 && W(block, 31) == 0x97e9810e
  {
    FirstWords0(block);
  }

  lemma FirstWords32(block: seq<Byte>)
    requires IsFirst(block)
    ensures W(block, 32) == 0x0989cbe8 && W(block, 33) == 0xf24843fe && W(block, 34) == 0x5c40d0ba
    ensures W(block, 35) == 0xa8d9cc3b && W(block, 36) == 0xb2b9666e && W(block, 37) == 0xba7b71b7
    ensures W(block, 38) == 0x20b28a72 && W(block, 39) == 0xb28af500 && W(block, 40) == 0x8ac87842
    ensures W(block, 41) == 0x289addf4 && W(block, 42) == 0x56d51f21 && W(block, 43) == 0xd96b7fd2
    ensures W(block, 44) == 0x3868e778 && W(block, 45) == 0xab5e4848
    ensures W(block, 46) == 0x7f0e2118 && W(block, 47) == 0xde87a111
  {
    FirstWords16(block);
  }

  lemma FirstWords48(block: seq<Byte>)
    requires IsFirst(block)
    ensures W(block, 48) == 0xe8be56b0 && W(block, 49) == 0x1a0ae652 && W(block, 50) == 0xcd5611c8
    ensures W(block, 51) == 0x46ef29dc && W(block, 52) == 0x60d3da6d && W(block, 53) == 0xddf3ba6e
    ensures W(block, 54) == 0x2737f5e9 && W(block, 55) == 0x4888a710 && W(block, 56) == 0xd2a1177b
    ensures W(block, 57) == 0x9999633b && W(block, 58) == 0xd6c69d03 && W(block, 59) == 0xccf6127b
    ensures W(block, 60) == 0x7c58fe6d && W(block, 61) == 0xfdd99c68
    ensures W(block, 62) == 0xf8e32074 && W(block, 63) == 0xe0ba3c7d
  {
    FirstWords32(block);
  }

  lemma FirstWords64(block: seq<Byte>)
    requires IsFirst(block)
    ensures W(block, 64) == 0x152198d6 && W(block, 65) == 0x7b3f1982 && W(block, 66) == 0x37f2d5b7
    ensures W(block, 67) == 0x8596323e && W(block, 68) == 0x810790d6 && W(block, 69) == 0xbea0a942
    ensures W(block, 70) == 0x11c7e1b1 && W(block, 71) == 0x6158d101 && W(block, 72) == 0x5fcd77d9
    ensures W(block, 73) == 0x7f2f12e6 && W(block, 74) == 0xf868cfb1 && W(block, 75) == 0xd6e997e9
    ensures W(block, 76) == 0xf526b852 && W(block, 77) == 0xb7578dcc
    ensures W(block, 78) == 0x55d99df4 && W(block, 79) == 0x1ff69958
  {
    FirstWords48(block);
  }

  lemma FirstRounds20(block: seq<Byte>)
    requires IsFirst(block)
    ensures Rounds(FirstStart, block, 20) == Working(0x6c445652, 0x944b1bd1, 0x509ae70d, 0x1ac1a012, 0x5098df8e)
  {
    FirstWords0(block);
    FirstWords16(block);
    TwentyOn(FirstStart, block, 0);
  }

  lemma FirstRounds40(block: seq<Byte>)
    requires IsFirst(block)
    ensures Rounds(FirstStart, block, 40) == Working(0xadeb7478, 0x24957f22, 0x50fe1eba, 0x564cff26, 0xaadf0cbb)
  {
    FirstRounds20(block);
    FirstWords16(block);
    FirstWords32(block);
    TwentyOn(FirstStart, block, 20);
  }

  lemma FirstRounds60(block: seq<Byte>)
    requires IsFirst(block)
    ensures Rounds(FirstStart, block, 60) == Working(0x9ef775c3, 0xf03d3782, 0xeb029e53, 0xe9a06dc8, 0x1ddb0e44)
  {
    FirstRounds40(block);
    FirstWords32(block);
    FirstWords48(block);
    TwentyOn(FirstStart, block, 40);
  }

  lemma FirstRounds80(block: seq<Byte>)
    requires IsFirst(block)
    ensures Rounds(FirstStart, block, 80) == Working(0x8ce34517, 0xd3ad7c25, 0x6b4e1883, 0x74351cd2, 0x86838382)
  {
    FirstRounds60(block);
    FirstWords48(block);
    FirstWords64(block);
    TwentyOn(FirstStart, block, 60);
  }

  lemma FirstCompressed(block: seq<Byte>)
    requires IsFirst(block)
    ensures Compress(InitialHash, block)
      == [0xf4286818, 0xc37b27ae, 0x0408f581, 0x84677148, 0x4a566572]
  {
    FirstRounds80(block);
  }

  // ---------------------------------------------------------------------
  // The second block.

  const SecondStart := Working(0xf4286818, 0xc37b27ae, 0x0408f581, 0x84677148, 0x4a566572)

  predicate IsSecond(block: seq<Byte>) {
    && |block| == 64
    && BlockWord(block, 0) == 0x00000000 && BlockWord(block, 1) == 0x00000000
    && BlockWord(block, 2) == 0x00000000 && BlockWord(block, 3) == 0x00000000
    && BlockWord(block, 4) == 0x00000000 && BlockWord(block, 5) == 0x00000000
    && BlockWord(block, 6) == 0x00000000 && BlockWord(block, 7) == 0x00000000
    && BlockWord(block, 8) == 0x00000000 && BlockWord(block, 9) == 0x00000000
    && BlockWord(block, 10) == 0x00000000 && BlockWord(block, 11) == 0x00000000
    && BlockWord(block, 12) == 0x00000000 && BlockWord(block, 13) == 0x00000000
    && BlockWord(block, 14) == 0x00000000 && BlockWord(block, 15) == 0x000001c0
  }

  lemma SecondWords0(block: seq<Byte>)
    requires IsSecond(block)
    ensures W(block, 0) == 0x00000000 && W(block, 1) == 0x00000000 && W(block, 2) == 0x00000000
    ensures W(block, 3) == 0x00000000 && W(block, 4) == 0x00000000 && W(block, 5) == 0x00000000
    ensures W(block, 6) == 0x00000000 && W(block, 7) == 0x00000000 && W(block, 8) == 0x00000000
    ensures W(block, 9) == 0x00000000 && W(block, 10) == 0x00000000 && W(block, 11) == 0x00000000
    ensures W(block, 12) == 0x00000000 && W(block, 13) == 0x00000000
    ensures W(block, 14) == 0x00000000 && W(block, 15) == 0x000001c0
  {
  }

  lemma SecondWords16(block: seq<Byte>)
    requires IsSecond(block)
    ensures W(block, 16) == 0x00000000 && W(block, 17) == 0x00000000 && W(block, 18) == 0x00000380
    ensures W(block, 19) == 0x00000000 && W(block, 20) == 0x00000000 && W(block, 21) == 0x00000700
    ensures W(block, 22) == 0x00000000 && W(block, 23) == 0x00000380 && W(block, 24) == 0x00000e00
    ensures W(block, 25) == 0x00000000 && W(block, 26) == 0x00000000 && W(block, 27) == 0x00001c00
    ensures W(block, 28) == 0x00000000 && W(block, 29) == 0x00000d80
    ensures W(block, 30) == 0x00003800 && W(block, 31) == 0x00000480
  {
    SecondWords0(block);
  }

  lemma SecondWords32(block: seq<Byte>)
    requires IsSecond(block)
    ensures W(block, 32) == 0x00000000 && W(block, 33) == 0x00007000 && W(block, 34) == 0x00000e00
    ensures W(block, 35) == 0x00003600 && W(block, 36) == 0x0000e000 && W(block, 37) == 0x00000e00
    ensures W(block, 38) == 0x00000000 && W(block, 39) == 0x0001ce00 && W(block, 40) == 0x00000000
    ensures W(block, 41) == 0x0000d800 && W(block, 42) == 0x00038000 && W(block, 43) == 0x00004f00
    ensures W(block, 44) == 0x00000000 && W(block, 45) == 0x00070e00
    ensures W(block, 46) == 0x0000ee00 && W(block, 47) == 0x00037500
  {
    SecondWords16(block);
  }

  lemma SecondWords48(block: seq<Byte>)
    requires IsSecond(block)
    ensures W(block, 48) == 0x000e0000 && W(block, 49) == 0x0000e000 && W(block, 50) == 0x00003600
    ensures W(block, 51) == 0x001cee00 && W(block, 52) == 0x00000000 && W(block, 53) == 0x000df000
    ensures W(block, 54) == 0x00380000 && W(block, 55) == 0x0004c600 && W(block, 56) == 0x0000e000
    ensures W(block, 57) == 0x0070ee00 && W(block, 58) == 0x000ee000 && W(block, 59) == 0x00369e00
    ensures W(block, 60) == 0x00e00000 && W(block, 61) == 0x000ed600
    ensures W(block, 62) == 0x0000e000 && W(block, 63) == 0x01cea600
  {
    SecondWords32(block);
  }

  lemma SecondWords64(block: seq<Byte>)
    requires IsSecond(block)
    ensures W(block, 64) == 0x00000000 && W(block, 65) == 0x00d80000 && W(block, 66) == 0x0380e000
    ensures W(block, 67) == 0x004f0000 && W(block, 68) == 0x00000000 && W(block, 69) == 0x070e0000
    ensures W(block, 70) == 0x00ee0000 && W(block, 71) == 0x03751c00 && W(block, 72) == 0x0e000000
    ensures W(block, 73) == 0x00e0e000 && W(block, 74) == 0x00363800 && W(block, 75) == 0x1cee9000
    ensures W(block, 76) == 0x00000000 && W(block, 77) == 0x0df09000
    ensures W(block, 78) == 0x3800e000 && W(block, 79) == 0x04c77400
  {
    SecondWords48(block);
  }

  lemma SecondRounds20(block: seq<Byte>)
    requires IsSecond(block)
    ensures Rounds(SecondStart, block, 20) == Working(0xd8992153, 0xc2eb709f, 0x2946d62f, 0x9541f6db, 0x365dc8d8)
  {
    SecondWords0(block);
    SecondWords16(block);
    TwentyOn(SecondStart, block, 0);
  }

  lemma SecondRounds40(block: seq<Byte>)
    requires IsSecond(block)
    ensures Rounds(SecondStart, block, 40) == Working(0x03bb6310, 0x84e2a5f2, 0x21f56e03, 0xb3bd6b84, 0x1a5b6901)
  {
    SecondRounds20(block);
    SecondWords16(block);
    SecondWords32(block);
    TwentyOn(SecondStart, block, 20);
  }

  lemma SecondRounds60(block: seq<Byte>)
    requires IsSecond(block)
    ensures Rounds(SecondStart, block, 60) == Working(0xa65818f7, 0x5b086c42, 0xb9e15956, 0xea1256a6, 0xdb69cb9f)
  {
    SecondRounds40(block);
    SecondWords32(block);
    SecondWords48(block);
    TwentyOn(SecondStart, block, 40);
  }

  lemma SecondRounds80(block: seq<Byte>)
    requires IsSecond(block)
    ensures Rounds(SecondStart, block, 80) == Working(0x906fd62c, 0x58c0aac0, 0xb6a55520, 0x74e9b89d, 0x9af00b7f)
  {
    SecondRounds60(block);
    SecondWords48(block);
    SecondWords64(block);
    TwentyOn(SecondStart, block, 60);
  }

  lemma SecondCompressed(block: seq<Byte>)
    requires IsSecond(block)
    ensures Compress([0xf4286818, 0xc37b27ae, 0x0408f581, 0x84677148, 0x4a566572], block)
      == [0x84983e44, 0x1c3bd26e, 0xbaae4aa1, 0xf95129e5, 0xe54670f1]
  {
    SecondRounds80(block);
  }

  // ---------------------------------------------------------------------
  // The message.

  lemma {:induction false} ZeroOctets(n: nat)
    ensures BigEndian(0, n) == seq(n, _ => 0)
  {
    if n > 0 {
      ZeroOctets(n - 1);
    }
  }

  lemma ExampleLength()
    ensures LengthField(448) == [0, 0, 0, 0, 0, 0, 1, 192]
  {
    ZeroOctets(6);
    assert BigEndian(448, 8) == BigEndian(1, 7) + [LowByte(448)];
    assert BigEndian(1, 7) == BigEndian(0, 6) + [LowByte(1)];
    assert LowByte(448) == 192 && LowByte(1) == 1;
  }

  lemma PadExample(m: seq<Byte>)
    requires |m| == 56
    ensures Pad(m) == m + [0x80] + seq(63, _ => 0) + [0, 0, 0, 0, 0, 0, 1, 192]
  {
    ExampleLength();
    ExampleZeros();
    assert PadZeroBits(|m|) / 8 == 63 && 8 * |m| % 0x1_0000_0000_0000_0000 == 448;
  }

  lemma ExampleZeros()
    ensures PadZeroBits(56) == 511
  {
  }

  // "abcd", "bcde", and so on: four letters in a row.
  predicate Quad(m: seq<Byte>, i: nat, first: Byte) {
    && 4 * i + 3 < |m|
    && m[4 * i] == first && m[4 * i + 1] == first + 1 && m[4 * i + 2] == first + 2 && m[4 * i + 3] == first + 3
  }

  // "abcdbcdecdefdefgefghfghighijhijkijkljklmklmnlmnomnopnopq" in ASCII.
  predicate Spells(m: seq<Byte>) {
    && |m| == 56
    && Quad(m, 0, 0x61) && Quad(m, 1, 0x62)
    && Quad(m, 2, 0x63) && Quad(m, 3, 0x64)
    && Quad(m, 4, 0x65) && Quad(m, 5, 0x66)
    && Quad(m, 6, 0x67) && Quad(m, 7, 0x68)
    && Quad(m, 8, 0x69) && Quad(m, 9, 0x6a)
    && Quad(m, 10, 0x6b) && Quad(m, 11, 0x6c)
    && Quad(m, 12, 0x6d) && Quad(m, 13, 0x6e)
  }

  lemma QuadWord(block: seq<Byte>, i: nat, first: Byte)
    requires |block| == 64 && i < 16 && Quad(block, i, first)
    ensures BlockWord(block, i) == (first as Word << 24) | ((first + 1) as Word << 16) | ((first + 2) as Word << 8)
                                   | ((first + 3) as Word)
  {
  }

  predicate Ends(block: seq<Byte>) {
    && |block| == 64 && block[56] == 0x80 && (forall i :: 57 <= i < 64 ==> block[i] == 0)
  }

  predicate SecondBytes(block: seq<Byte>) {
    && |block| == 64 && (forall i :: 0 <= i < 62 ==> block[i] == 0) && block[62] == 1 && block[63] == 192
  }

  lemma FirstBlock(block: seq<Byte>)
    requires |block| == 64 && Spells(block[..56]) && Ends(block)
    ensures IsFirst(block)
  {
    assert forall i :: 0 <= i < 56 ==> block[..56][i] == block[i];
    QuadWord(block, 0, 0x61);
    QuadWord(block, 1, 0x62);
    QuadWord(block, 2, 0x63);
    QuadWord(block, 3, 0x64);
    QuadWord(block, 4, 0x65);
    QuadWord(block, 5, 0x66);
    QuadWord(block, 6, 0x67);
    QuadWord(block, 7, 0x68);
    QuadWord(block, 8, 0x69);
    QuadWord(block, 9, 0x6a);
    QuadWord(block, 10, 0x6b);
    QuadWord(block, 11, 0x6c);
    QuadWord(block, 12, 0x6d);
    QuadWord(block, 13, 0x6e);
    assert BlockWord(block, 14) == 0x80000000 && BlockWord(block, 15) == 0;
  }

  lemma SecondBlock(block: seq<Byte>)
    requires SecondBytes(block)
    ensures IsSecond(block)
  {
  }

  lemma ExampleBlocks(m: seq<Byte>)
    requires |m| == 56
    ensures |Pad(m)| == 128 && Pad(m)[..64][..56] == m && Ends(Pad(m)[..64]) && SecondBytes(Pad(m)[64..])
  {
    PadExample(m);
  }

  lemma TwoBlocks(bytes: seq<Byte>)
    requires |bytes| == 128
    ensures HashBlocks(bytes) == Compress(Compress(InitialHash, bytes[..64]), bytes[64..])
  {
    var first := bytes[..64];
    assert first[..0] == [] && first[0..] == first;
    assert HashBlocks(first) == Compress(HashBlocks(first[..0]), first[0..]);
  }

  lemma ExampleOctets()
    ensures Digest([0x84983e44, 0x1c3bd26e, 0xbaae4aa1, 0xf95129e5, 0xe54670f1])
      == [0x84, 0x98, 0x3e, 0x44, 0x1c, 0x3b, 0xd2, 0x6e, 0xba, 0xae,
          0x4a, 0xa1, 0xf9, 0x51, 0x29, 0xe5, 0xe5, 0x46, 0x70, 0xf1]
  {
  }

  lemma ExampleDigest(m: seq<Byte>)
    requires Spells(m)
    ensures Sha1(m) == [0x84, 0x98, 0x3e, 0x44, 0x1c, 0x3b, 0xd2, 0x6e, 0xba, 0xae,
                        0x4a, 0xa1, 0xf9, 0x51, 0x29, 0xe5, 0xe5, 0x46, 0x70, 0xf1]
  {
    ExampleBlocks(m);
    var padded := Pad(m);
    FirstBlock(padded[..64]);
    SecondBlock(padded[64..]);
    FirstCompressed(padded[..64]);
    SecondCompressed(padded[64..]);
    TwoBlocks(padded);
    ExampleOctets();
  }
}
