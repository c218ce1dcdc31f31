// The streaming SHA-1 of the kernel driver, driver/module/sha1_digest.c: a
// context updated in place, fed in any number of pieces, padded and closed.
module Sha1Engine {
  import opened Fips180

  const BlockSize := 64
  const LengthModulus := 0x1_0000_0000_0000_0000

  // A u64: the addition to bit_count wraps.
  newtype u64 = x: int | 0 <= x < LengthModulus

  // The driver writes the choice and majority functions with | where the
  // standard writes ^.
  function DriverChoice(b: Word, c: Word, d: Word): Word { (b & c) | (!b & d) }

  function DriverMajority(b: Word, c: Word, d: Word): Word { (b & c) | (b & d) | (c & d) }

  lemma OrIsXorInChoice(b: Word, c: Word, d: Word)
    ensures ((b & c) | (!b & d)) == (b & c) ^ (!b & d)
  {
  }

  lemma OrIsXorInMajority(b: Word, c: Word, d: Word)
    ensures ((b & c) | (b & d) | (c & d)) == (b & c) ^ (b & d) ^ (c & d)
  {
  }

  lemma DriverChoiceIsCh(b: Word, c: Word, d: Word)
    ensures DriverChoice(b, c, d) == Ch(b, c, d)
  {
    OrIsXorInChoice(b, c, d);
  }

  lemma DriverMajorityIsMaj(b: Word, c: Word, d: Word)
    ensures DriverMajority(b, c, d) == Maj(b, c, d)
  {
    OrIsXorInMajority(b, c, d);
  }

  // The first two loops of sha1_transform: the message schedule.
  method FillSchedule(buffer: array<Byte>) returns (w: array<Word>)
    requires buffer.Length == BlockSize
    ensures fresh(w) && w.Length == 80
    ensures forall t :: 0 <= t < 80 ==> w[t] == W(buffer[..], t)
  {
    w := new Word[80];
    LoadWords(buffer, w);
    ExtendWords(w, buffer[..]);
  }

  // Its first loop.
  method LoadWords(buffer: array<Byte>, w: array<Word>)
    requires buffer.Length == BlockSize && w.Length == 80
    modifies w
    ensures forall t :: 0 <= t < 16 ==> w[t] == W(buffer[..], t)
  {
    ghost var block := buffer[..];
    for i := 0 to 16
      invariant forall j :: 0 <= j < i ==> w[j] == W(block, j)
    {
      w[i] := (buffer[i * 4] as Word << 24) | (buffer[i * 4 + 1] as Word << 16)
        | (buffer[i * 4 + 2] as Word << 8) | (buffer[i * 4 + 3] as Word);
      assert w[i] == BlockWord(block, i);
    }
  }

  // Its second loop.
  method ExtendWords(w: array<Word>, ghost block: seq<Byte>)
    requires |block| == BlockSize && w.Length == 80 && forall t :: 0 <= t < 16 ==> w[t] == W(block, t)
    modifies w
    ensures forall t :: 0 <= t < 80 ==> w[t] == W(block, t)
  {
    for i := 16 to 80
      invariant forall j :: 0 <= j < i ==> w[j] == W(block, j)
    {
      w[i] := RotL(1, w[i - 3] ^ w[i - 8] ^ w[i - 14] ^ w[i - 16]);
      assert w[i] == W(block, i);
    }
  }

  // The choice of f and k in the round loop of sha1_transform.
  method RoundFunction(i: nat, b: Word, c: Word, d: Word) returns (f: Word, k: Word)
    requires i < 80
    ensures f == F(i, b, c, d) && k == K(i)
  {
    if i < 20 {
      f, k := DriverChoice(b, c, d), 0x5A827999;
      DriverChoiceIsCh(b, c, d);
    } else if i < 40 {
      f, k := Parity(b, c, d), 0x6ED9EBA1;
    } else if i < 60 {
      f, k := DriverMajority(b, c, d), 0x8F1BBCDC;
      DriverMajorityIsMaj(b, c, d);
    } else {
      f, k := Parity(b, c, d), 0xCA62C1D6;
    }
  }

  // sha1_transform.
  method Transform(state: array<Word>, buffer: array<Byte>)
    requires state.Length == 5 && buffer.Length == BlockSize
    modifies state
    ensures state[..] == Compress(old(state[..]), buffer[..])
  {
    var w := FillSchedule(buffer);
    var a, b, c, d, e := state[0], state[1], state[2], state[3], state[4];
    ghost var start, block, ws := Working(a, b, c, d, e), buffer[..], w[..];
    for i := 0 to 80
      invariant Working(a, b, c, d, e) == Rounds(start, block, i)
      invariant w[..] == ws && state[..] == old(state[..])
    {
      var f, k := RoundFunction(i, b, c, d);
      var temp := T(a, f, e, k, w[i]);
      e := d;
      d := c;
      c := RotL(30, b);
      b := a;
      a := temp;
    }
    state[0], state[1], state[2], state[3], state[4] :=
      Sum(state[0], a), Sum(state[1], b), Sum(state[2], c), Sum(state[3], d), Sum(state[4], e);
  }

  // ---------------------------------------------------------------------
  // Facts about whole blocks and padding, on sequences.

  function Zeros(n: nat): (z: seq<Byte>)
    ensures |z| == n
  {
    seq(n, _ => 0)
  }

  // A full buffer is one more block of the standard's fold.
  lemma HashOneMoreBlock(m: seq<Byte>, block: seq<Byte>)
    requires |m| % 64 == 0 && |block| == 64
    ensures (|m + block|) % 64 == 0
    ensures HashBlocks(m + block) == Compress(HashBlocks(m), block)
  {
    var t := m + block;
    assert t[..|t| - 64] == m && t[|t| - 64..] == block;
  }

  // Any number of zero bytes below 64 that leaves room for the length is the
  // number the standard asks for.
  lemma ZeroCountIsUnique(n: nat, z: nat)
    requires z < 64 && n + 1 + z >= 56 && (n + 1 + z - 56) % 64 == 0
    ensures z == PadZeroBits(n) / 8
  {
    PadFillsBlocks(n);
    var k := PadZeroBits(n) / 8;
    assert (n + 1 + k) % 64 == 56 && k < 64;
    var p, q := (n + 1 + z - 56) / 64, (n + 1 + k) / 64;
    assert z - k == 64 * (p - q);
  }

  // v >> 8 * i, eight bits at a time.
  function ShiftRight8(v: nat, i: nat): nat {
    if i == 0 then v else ShiftRight8(v / 256, i - 1)
  }

  // Writing the bytes v >> 56, v >> 48, .. is writing v big-endian.
  lemma {:induction false} BigEndianAt(v: nat, octets: nat, j: nat)
    requires j < octets
    ensures BigEndian(v, octets)[j] == LowByte(ShiftRight8(v, octets - 1 - j))
  {
    if j < octets - 1 {
      BigEndianAt(v / 256, octets - 1, j);
    }
  }

  lemma LengthFieldStep(v: nat, i: nat)
    requires i < 8
    ensures LengthField(v)[..7 - i] + [LowByte(ShiftRight8(v, i))] == LengthField(v)[..8 - i]
  {
    BigEndianAt(v, 8, 7 - i);
  }

  lemma AppendZeros(m: seq<Byte>, j: nat, k: nat)
    ensures m + Zeros(j) + Zeros(k) == m + Zeros(j + k)
  {
  }

  // The wrapped bit count still gives the right buffer index.
  lemma IndexFromBitCount(n: nat)
    ensures (8 * n % LengthModulus / 8) % 64 == n % 64
  {
    var t := 8 * n / 0x1_0000_0000_0000_0000;
    var r := n - 64 * (t * 0x80_0000_0000_0000);
    assert 8 * n % LengthModulus == 8 * r;
    assert 8 * r / 8 == r;
    RemainderShift(n, t * 0x80_0000_0000_0000);
  }

  lemma RemainderShift(n: nat, k: nat)
    requires n >= 64 * k
    ensures (n - 64 * k) % 64 == n % 64
  {
    var q := n / 64;
    assert n - 64 * k == 64 * (q - k) + n % 64;
  }

  lemma RemainderIs(n: nat, r: nat)
    requires r <= n && r < 64 && (n - r) % 64 == 0
    ensures r == n % 64
  {
  }

  lemma AddLength(n: nat, k: nat)
    ensures (8 * n % LengthModulus + k * 8) % LengthModulus == 8 * (n + k) % LengthModulus
  {
  }

  // ---------------------------------------------------------------------
  // sha1_context_t.
  class Context {
    const state: array<Word>
    const buffer: array<Byte>
    var bitCount: u64
    // Every byte given to Update so far.
    ghost var message: seq<Byte>

    // The buffer holds the last index bytes of m, and the blocks before them
    // are hashed.
    ghost predicate Absorbed(m: seq<Byte>, index: nat)
      reads state, buffer
    {
      && state.Length == 5 && buffer.Length == BlockSize
      && index <= BlockSize && index <= |m| && (|m| - index) % 64 == 0
      && state[..] == HashBlocks(m[..|m| - index])
      && buffer[..index] == m[|m| - index..]
    }

    ghost predicate Valid()
      reads this, state, buffer
    {
      && bitCount as nat == 8 * |message| % LengthModulus
      && Absorbed(message, |message| % 64)
    }

    // sha1_init.
    constructor ()
      ensures Valid() && message == [] && fresh(state) && fresh(buffer)
    {
      state := new Word[5];
      buffer := new Byte[BlockSize](_ => 0);
      bitCount := 0;
      message := [];
      new;
      state[0] := 0x67452301;
      state[1] := 0xEFCDAB89;
      state[2] := 0x98BADCFE;
      state[3] := 0x10325476;
      state[4] := 0xC3D2E1F0;
      assert state[..] == InitialHash;
    }

    // buffer[buffer_index++] = b.
    method Put(b: Byte, index: nat, ghost m: seq<Byte>) returns (next: nat)
      requires Absorbed(m, index) && index < BlockSize
      modifies buffer
      ensures next == index + 1 && Absorbed(m + [b], next)
    {
      buffer[index] := b;
      next := index + 1;
      assert (m + [b])[..|m + [b]| - next] == m[..|m| - index];
    }

    // The call of sha1_transform on a full buffer.
    method Flush(ghost m: seq<Byte>)
      requires Absorbed(m, BlockSize)
      modifies state
      ensures Absorbed(m, 0)
    {
      HashOneMoreBlock(m[..|m| - 64], m[|m| - 64..]);
      assert m[..|m| - 64] + m[|m| - 64..] == m == m[..|m|];
      assert buffer[..BlockSize] == buffer[..];
      Transform(state, buffer);
    }

    // One byte of sha1_update: store it, and compress a full buffer.
    method Absorb(b: Byte, index: nat, ghost m: seq<Byte>) returns (next: nat)
      requires Absorbed(m, index) && index < BlockSize
      modifies state, buffer
      ensures next < BlockSize && Absorbed(m + [b], next)
    {
      next := Put(b, index, m);
      if next == BlockSize {
        Flush(m + [b]);
        next := 0;
      }
    }

    // buffer_index at the start of sha1_update and sha1_final.
    method BufferIndex() returns (index: nat)
      requires Valid()
      ensures index == |message| % 64
    {
      IndexFromBitCount(|message|);
      index := (bitCount as nat / 8) % BlockSize;
    }

    // The loop of sha1_update.
    method AbsorbAll(data: seq<Byte>, index: nat, ghost m: seq<Byte>) returns (next: nat)
      requires Absorbed(m, index) && index < BlockSize
      modifies state, buffer
      ensures next < BlockSize && Absorbed(m + data, next)
    {
      next := index;
      assert m + data[..0] == m;
      for i := 0 to |data|
        invariant 0 <= next < BlockSize
        invariant Absorbed(m + data[..i], next)
      {
        next := Absorb(data[i], next, m + data[..i]);
        assert m + data[..i] + [data[i]] == m + data[..i + 1];
      }
      assert data[..|data|] == data;
    }

    // sha1_update.
    method Update(data: seq<Byte>)
      requires Valid()
      modifies this, state, buffer
      ensures Valid() && message == old(message) + data
    {
      var bufferIndex: nat;
      bufferIndex := BufferIndex();
      CountLength(|data|);
      ghost var m := message + data;
      bufferIndex := AbsorbAll(data, bufferIndex, message);
      RemainderIs(|m|, bufferIndex);
      message := m;
    }

    // ctx->bit_count += (u64)len * 8.
    method CountLength(len: nat)
      requires bitCount as nat == 8 * |message| % LengthModulus
      modifies this`bitCount
      ensures bitCount as nat == 8 * (|message| + len) % LengthModulus
    {
      AddLength(|message|, len);
      bitCount := ((bitCount as nat + len * 8) % LengthModulus) as u64;
    }

    // Zero bytes from index up to limit.
    method PutZeros(index: nat, limit: nat, ghost m: seq<Byte>) returns (next: nat)
      requires Absorbed(m, index) && index <= limit <= BlockSize
      modifies buffer
      ensures next == limit && Absorbed(m + Zeros(limit - index), limit)
    {
      next := index;
      ghost var done := m;
      while next < limit
        invariant index <= next <= limit
        invariant done == m + Zeros(next - index) && Absorbed(done, next)
        modifies buffer
      {
        next := Put(0, next, done);
        AppendZeros(m, next - 1 - index, 1);
        done := done + [0];
      }
    }

    // (u8)(ctx->bit_count >> (i * 8)).
    method PutLengthByte(i: nat, index: nat, ghost m: seq<Byte>) returns (next: nat)
      requires i < 8 && index < BlockSize
      requires Absorbed(m + LengthField(bitCount as nat)[..7 - i], index)
      modifies buffer
      ensures next == index + 1 && Absorbed(m + LengthField(bitCount as nat)[..8 - i], next)
    {
      ghost var field := LengthField(bitCount as nat);
      LengthFieldStep(bitCount as nat, i);
      var b := LowByte(ShiftRight8(bitCount as nat, i));
      assert m + field[..7 - i] + [b] == m + field[..8 - i];
      next := Put(b, index, m + field[..7 - i]);
    }

    // The loop that writes bit_count, most significant byte first.
    method PutLength(index: nat, ghost m: seq<Byte>)
      requires Absorbed(m, index) && index == 56
      modifies buffer
      ensures Absorbed(m + LengthField(bitCount as nat), BlockSize)
    {
      var next, i := index, 7;
      ghost var field := LengthField(bitCount as nat);
      assert m + field[..0] == m;
      while i >= 0
        invariant -1 <= i <= 7 && next == 63 - i
        invariant Absorbed(m + field[..7 - i], next)
        modifies buffer
      {
        next := PutLengthByte(i, next, m);
        i := i - 1;
      }
      assert field[..8] == field;
    }

    // The byte 0x80 of sha1_final and, when the length no longer fits, the
    // zeros that close the block.
    method PutMarker() returns (bufferIndex: nat, ghost zeros: nat)
      requires Valid()
      modifies state, buffer
      ensures bufferIndex <= 56 && zeros + 56 - bufferIndex < 64
      ensures Absorbed(message + [0x80] + Zeros(zeros), bufferIndex)
    {
      bufferIndex := BufferIndex();
      bufferIndex := Put(0x80, bufferIndex, message);
      zeros := 0;
      if bufferIndex > 56 {
        zeros := BlockSize - bufferIndex;
        bufferIndex := PutZeros(bufferIndex, BlockSize, message + [0x80]);
        Flush(message + [0x80] + Zeros(zeros));
        bufferIndex := 0;
      } else {
        assert message + [0x80] + Zeros(0) == message + [0x80];
      }
    }

    // sha1_final up to the length.
    method PadToLength() returns (bufferIndex: nat, ghost m: seq<Byte>)
      requires Valid()
      modifies state, buffer
      ensures bufferIndex == 56 && Absorbed(m, 56)
      ensures m == message + [0x80] + Zeros(PadZeroBits(|message|) / 8)
    {
      ghost var zeros: nat;
      bufferIndex, zeros := PutMarker();
      ghost var more := 56 - bufferIndex;
      m := message + [0x80] + Zeros(zeros);
      bufferIndex := PutZeros(bufferIndex, 56, m);
      AppendZeros(message + [0x80], zeros, more);
      m := m + Zeros(more);
      ZeroCountIsUnique(|message|, zeros + more);
    }

    // sha1_final.
    method Final() returns (digest: seq<Byte>)
      requires Valid()
      modifies state, buffer
      ensures digest == Sha1(message)
    {
      var bufferIndex: nat;
      ghost var m: seq<Byte>;
      bufferIndex, m := PadToLength();
      PutLength(bufferIndex, m);
      m := m + LengthField(bitCount as nat);
      assert m == Pad(message);
      Flush(m);
      assert m[..|m|] == m;
      digest := WordOctets(state[0]) + WordOctets(state[1]) + WordOctets(state[2])
        + WordOctets(state[3]) + WordOctets(state[4]);
    }
  }

  function Flatten(chunks: seq<seq<Byte>>): seq<Byte> {
    if chunks == [] then [] else Flatten(chunks[..|chunks| - 1]) + chunks[|chunks| - 1]
  }

  // sha1_init, one sha1_update for each piece, sha1_final: however the message
  // is cut, the digest is that of the standard.
  method HashInPieces(chunks: seq<seq<Byte>>) returns (digest: seq<Byte>)
    ensures digest == Sha1(Flatten(chunks))
  {
    var ctx := new Context();
    for i := 0 to |chunks|
      invariant ctx.Valid() && fresh(ctx.state) && fresh(ctx.buffer)
      invariant ctx.message == Flatten(chunks[..i])
    {
      assert chunks[..i + 1][..i] == chunks[..i];
      ctx.Update(chunks[i]);
    }
    assert chunks[..|chunks|] == chunks;
    digest := ctx.Final();
  }

  // ---------------------------------------------------------------------
  // kernel_sha1_transform.

  // strlen: the bytes before the first NUL.
  function CString(s: seq<Byte>): (t: seq<Byte>)
    requires 0 in s
    ensures t < s && s[|t|] == 0 && 0 !in t
  {
    if s[0] == 0 then [] else [s[0]] + CString(s[1..])
  }

  function HexDigit(n: Byte): Byte {
    if n < 10 then 0x30 + n else 0x57 + n
  }

  // "%02x".
  function Hex2(b: Byte): (h: seq<Byte>)
    ensures |h| == 2
  {
    [HexDigit(b >> 4), HexDigit(b & 0xf)]
  }

  function Hex(d: seq<Byte>): (h: seq<Byte>)
    ensures |h| == 2 * |d|
  {
    if d == [] then [] else Hex(d[..|d| - 1]) + Hex2(d[|d| - 1])
  }

  // Every digit is one of 0-9 and a-f, and reading two of them back gives the byte.
  function HexValue(c: Byte): Byte {
    if c < 0x3a then c - 0x30 else c - 0x57
  }

  lemma Hex2ReadsBack(b: Byte)
    ensures var h := Hex2(b);
      && (forall c :: c in h ==> 0x30 <= c <= 0x39 || 0x61 <= c <= 0x66)
      && (HexValue(h[0]) << 4) | HexValue(h[1]) == b
  {
    var h := Hex2(b);
    assert forall c :: c in h ==> c == h[0] || c == h[1];
  }

  method KernelSha1Transform(input: seq<Byte>, output: array<Byte>)
    requires 0 in input
    modifies output
    ensures output.Length >= 41 ==>
      output[..40] == Hex(Sha1(CString(input))) && output[40] == 0 && output[41..] == old(output[41..])
    ensures 0 < output.Length < 41 ==> output[0] == 0 && output[1..] == old(output[1..])
  {
    if output.Length < 41 {
      if output.Length > 0 {
        output[0] := 0;
      }
      return;
    }
    var ctx := new Context();
    ctx.Update(CString(input));
    assert [] + CString(input) == CString(input);
    var digest := ctx.Final();
    WriteHex(digest, output);
  }

  // The snprintf loop: each call also writes a NUL after its two digits.
  method WriteHex(digest: seq<Byte>, output: array<Byte>)
    requires |digest| == 20 && output.Length >= 41
    modifies output
    ensures output[..40] == Hex(digest) && output[40] == 0 && output[41..] == old(output[41..])
  {
    for i := 0 to |digest|
      invariant output[..2 * i] == Hex(digest[..i])
      invariant output[41..] == old(output[41..])
    {
      var h := Hex2(digest[i]);
      output[2 * i], output[2 * i + 1], output[2 * i + 2] := h[0], h[1], 0;
      assert digest[..i + 1][..i] == digest[..i];
      assert output[..2 * i + 2] == output[..2 * i] + h;
    }
    assert digest[..|digest|] == digest;
    output[40] := 0;
  }
}
