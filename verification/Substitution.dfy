// The letter and digit substitution of the kernel driver,
// driver/module/substitution.c. Bytes are integers; a C string is read up to its
// first NUL.
module Substitution {

  type byte = x: int | 0 <= x < 256

  // "abc..z", "qazwsxedcrfvtgbyhnujmikolp" and the same in capitals, in ASCII.
  const LowerAlphabet: seq<byte> := [97, 98, 99, 100, 101, 102, 103, 104, 105, 106, 107, 108, 109, 110, 111, 112, 113, 114, 115, 116, 117, 118, 119, 120, 121, 122]
  const LowerCipher: seq<byte> := [113, 97, 122, 119, 115, 120, 101, 100, 99, 114, 102, 118, 116, 103, 98, 121, 104, 110, 117, 106, 109, 105, 107, 111, 108, 112]
  const UpperAlphabet: seq<byte> := [65, 66, 67, 68, 69, 70, 71, 72, 73, 74, 75, 76, 77, 78, 79, 80, 81, 82, 83, 84, 85, 86, 87, 88, 89, 90]
  const UpperCipher: seq<byte> := [81, 65, 90, 87, 83, 88, 69, 68, 67, 82, 70, 86, 84, 71, 66, 89, 72, 78, 85, 74, 77, 73, 75, 79, 76, 80]
  // "0123456789" and "7319058246".
  const Digits: seq<byte> := [48, 49, 50, 51, 52, 53, 54, 55, 56, 57]
  const DigitCipher: seq<byte> := [55, 51, 49, 57, 48, 53, 56, 50, 52, 54]

  // What the loop of map_char computes from position i on.
  function MapFrom(ch: byte, source: seq<byte>, target: seq<byte>, i: nat): byte
    requires |source| == |target| && i <= |source|
    decreases |source| - i
  {
    if i == |source| then ch
    else if source[i] == ch then target[i]
    else MapFrom(ch, source, target, i + 1)
  }

  method MapChar(ch: byte, source: seq<byte>, target: seq<byte>, count: nat) returns (r: byte)
    requires |source| == |target| == count
    ensures r == MapFrom(ch, source, target, 0)
  {
    var i := 0;
    while i < count
      invariant i <= count && MapFrom(ch, source, target, i) == MapFrom(ch, source, target, 0)
    {
      if source[i] == ch {
        return target[i];
      }
      i := i + 1;
    }
    return ch;
  }

  predicate IsLower(ch: byte) { 97 <= ch <= 122 }
  predicate IsUpper(ch: byte) { 65 <= ch <= 90 }
  predicate IsDigit(ch: byte) { 48 <= ch <= 57 }

  function Forward(ch: byte): byte {
    if IsLower(ch) then MapFrom(ch, LowerAlphabet, LowerCipher, 0)
    else if IsUpper(ch) then MapFrom(ch, UpperAlphabet, UpperCipher, 0)
    else if IsDigit(ch) then MapFrom(ch, Digits, DigitCipher, 0)
    else ch
  }

  function Reverse(ch: byte): byte {
    if IsLower(ch) then MapFrom(ch, LowerCipher, LowerAlphabet, 0)
    else if IsUpper(ch) then MapFrom(ch, UpperCipher, UpperAlphabet, 0)
    else if IsDigit(ch) then MapFrom(ch, DigitCipher, Digits, 0)
    else ch
  }

  method MapForward(ch: byte) returns (r: byte)
    ensures r == Forward(ch)
  {
    if IsLower(ch) {
      r := MapChar(ch, LowerAlphabet, LowerCipher, 26);
    } else if IsUpper(ch) {
      r := MapChar(ch, UpperAlphabet, UpperCipher, 26);
    } else if IsDigit(ch) {
      r := MapChar(ch, Digits, DigitCipher, 10);
    } else {
      r := ch;
    }
  }

  method MapReverse(ch: byte) returns (r: byte)
    ensures r == Reverse(ch)
  {
    if IsLower(ch) {
      r := MapChar(ch, LowerCipher, LowerAlphabet, 26);
    } else if IsUpper(ch) {
      r := MapChar(ch, UpperCipher, UpperAlphabet, 26);
    } else if IsDigit(ch) {
      r := MapChar(ch, DigitCipher, Digits, 10);
    } else {
      r := ch;
    }
  }

  // ---------------------------------------------------------------------
  // The tables are inverse permutations of their class.

  // A table with no repeated source byte is looked up by position.
  ghost predicate Distinct(s: seq<byte>) {
    forall i, j :: 0 <= i < j < |s| ==> s[i] != s[j]
  }

  lemma {:induction false} MapFromAt(source: seq<byte>, target: seq<byte>, i: nat, k: nat)
    requires |source| == |target| && i <= k < |source| && Distinct(source)
    ensures MapFrom(source[k], source, target, i) == target[k]
    decreases k - i
  {
    if i < k {
      MapFromAt(source, target, i + 1, k);
    }
  }

  // The position of each letter or digit in its cipher table.
  const LetterPosition: seq<nat> := [1, 14, 8, 7, 6, 10, 13, 16, 21, 19, 22, 24, 20, 17, 23, 25, 0, 9, 4, 12, 18, 11, 3, 5, 15, 2]
  const DigitPosition: seq<nat> := [4, 2, 7, 1, 8, 5, 9, 0, 6, 3]

  lemma LowerAlphabetAt(k: nat)
    requires k < 26
    ensures LowerAlphabet[k] == 97 + k
  {
  }

  lemma LowerCipherAt(k: nat)
    requires k < 26
    ensures IsLower(LowerCipher[k]) && LetterPosition[LowerCipher[k] - 97] == k
  {
  }

  lemma LowerPositionAt(k: nat)
    requires k < 26
    ensures LetterPosition[k] < 26 && LowerCipher[LetterPosition[k]] == 97 + k
  {
  }

  lemma LowerDistinct()
    ensures Distinct(LowerAlphabet) && Distinct(LowerCipher)
  {
    forall i, j | 0 <= i < j < 26
      ensures LowerAlphabet[i] != LowerAlphabet[j] && LowerCipher[i] != LowerCipher[j]
    {
      LowerAlphabetAt(i);
      LowerAlphabetAt(j);
      LowerCipherAt(i);
      LowerCipherAt(j);
    }
  }

  lemma UpperAlphabetAt(k: nat)
    requires k < 26
    ensures UpperAlphabet[k] == 65 + k
  {
  }

  lemma UpperCipherAt(k: nat)
    requires k < 26
    ensures IsUpper(UpperCipher[k]) && LetterPosition[UpperCipher[k] - 65] == k
  {
  }

  lemma UpperPositionAt(k: nat)
    requires k < 26
    ensures LetterPosition[k] < 26 && UpperCipher[LetterPosition[k]] == 65 + k
  {
  }

  lemma UpperDistinct()
    ensures Distinct(UpperAlphabet) && Distinct(UpperCipher)
  {
    forall i, j | 0 <= i < j < 26
      ensures UpperAlphabet[i] != UpperAlphabet[j] && UpperCipher[i] != UpperCipher[j]
    {
      UpperAlphabetAt(i);
      UpperAlphabetAt(j);
      UpperCipherAt(i);
      UpperCipherAt(j);
    }
  }

  lemma DigitAlphabetAt(k: nat)
    requires k < 10
    ensures Digits[k] == 48 + k
  {
  }

  lemma DigitCipherAt(k: nat)
    requires k < 10
    ensures IsDigit(DigitCipher[k]) && DigitPosition[DigitCipher[k] - 48] == k
  {
  }

  lemma DigitPositionAt(k: nat)
    requires k < 10
    ensures DigitPosition[k] < 10 && DigitCipher[DigitPosition[k]] == 48 + k
  {
  }

  lemma DigitDistinct()
    ensures Distinct(Digits) && Distinct(DigitCipher)
  {
    forall i, j | 0 <= i < j < 10
      ensures Digits[i] != Digits[j] && DigitCipher[i] != DigitCipher[j]
    {
      DigitAlphabetAt(i);
      DigitAlphabetAt(j);
      DigitCipherAt(i);
      DigitCipherAt(j);
    }
  }

  // For one class: base .. base + |alphabet| - 1, its cipher and the positions.
  lemma ClassInverse(ch: byte, base: byte, alphabet: seq<byte>, cipher: seq<byte>, at: nat)
    requires |alphabet| == |cipher| && base <= ch < base + |alphabet|
    requires Distinct(alphabet) && Distinct(cipher)
    requires alphabet[ch - base] == ch && at < |cipher| && cipher[at] == ch
    ensures MapFrom(MapFrom(ch, alphabet, cipher, 0), cipher, alphabet, 0) == ch
    ensures MapFrom(MapFrom(ch, cipher, alphabet, 0), alphabet, cipher, 0) == ch
    ensures MapFrom(ch, alphabet, cipher, 0) == cipher[ch - base]
    ensures MapFrom(ch, cipher, alphabet, 0) == alphabet[at]
  {
    MapFromAt(alphabet, cipher, 0, ch - base);
    MapFromAt(cipher, alphabet, 0, ch - base);
    MapFromAt(cipher, alphabet, 0, at);
    MapFromAt(alphabet, cipher, 0, at);
  }

  // Both ways round, and each class is kept: letters stay letters of the same
  // case, digits stay digits, and everything else, NUL and the bytes of
  // multi-byte characters included, is untouched.
  lemma MapsAreInverse(ch: byte)
    ensures Reverse(Forward(ch)) == ch && Forward(Reverse(ch)) == ch
    ensures IsLower(Forward(ch)) == IsLower(Reverse(ch)) == IsLower(ch)
    ensures IsUpper(Forward(ch)) == IsUpper(Reverse(ch)) == IsUpper(ch)
    ensures IsDigit(Forward(ch)) == IsDigit(Reverse(ch)) == IsDigit(ch)
  {
    if IsLower(ch) {
      var k := ch - 97;
      LowerDistinct();
      LowerAlphabetAt(k);
      LowerCipherAt(k);
      LowerPositionAt(k);
      LowerAlphabetAt(LetterPosition[k]);
      ClassInverse(ch, 97, LowerAlphabet, LowerCipher, LetterPosition[k]);
    } else if IsUpper(ch) {
      var k := ch - 65;
      UpperDistinct();
      UpperAlphabetAt(k);
      UpperCipherAt(k);
      UpperPositionAt(k);
      UpperAlphabetAt(LetterPosition[k]);
      ClassInverse(ch, 65, UpperAlphabet, UpperCipher, LetterPosition[k]);
    } else if IsDigit(ch) {
      var k := ch - 48;
      DigitDistinct();
      DigitAlphabetAt(k);
      DigitCipherAt(k);
      DigitPositionAt(k);
      DigitAlphabetAt(DigitPosition[k]);
      ClassInverse(ch, 48, Digits, DigitCipher, DigitPosition[k]);
    }
  }

  // What the tables say, letter by letter: the keyboard's columns for the alphabet.
  lemma LowerTable(k: nat)
    requires k < 26
    ensures var c := "qazwsxedcrfvtgbyhnujmikolp"[k] as int; Forward(97 + k) == c && Reverse(c) == 97 + k
  {
    LowerInAscii(k);
    LowerDistinct();
    LowerAlphabetAt(k);
    LowerCipherAt(k);
    MapFromAt(LowerAlphabet, LowerCipher, 0, k);
    MapFromAt(LowerCipher, LowerAlphabet, 0, k);
  }

  lemma UpperTable(k: nat)
    requires k < 26
    ensures var c := "QAZWSXEDCRFVTGBYHNUJMIKOLP"[k] as int; Forward(65 + k) == c && Reverse(c) == 65 + k
  {
    UpperInAscii(k);
    UpperDistinct();
    UpperAlphabetAt(k);
    UpperCipherAt(k);
    MapFromAt(UpperAlphabet, UpperCipher, 0, k);
    MapFromAt(UpperCipher, UpperAlphabet, 0, k);
  }

  lemma LowerInAscii(k: nat)
    requires k < 26
    ensures "qazwsxedcrfvtgbyhnujmikolp"[k] as int == LowerCipher[k]
  {
  }

  lemma UpperInAscii(k: nat)
    requires k < 26
    ensures "QAZWSXEDCRFVTGBYHNUJMIKOLP"[k] as int == UpperCipher[k]
  {
  }

  lemma DigitTable(k: nat)
    requires k < 10
    ensures var digit := "7319058246"[k] as int; Forward(48 + k) == digit && Reverse(digit) == 48 + k
  {
    DigitDistinct();
    DigitAlphabetAt(k);
    DigitCipherAt(k);
    MapFromAt(Digits, DigitCipher, 0, k);
    MapFromAt(DigitCipher, Digits, 0, k);
  }

  // ---------------------------------------------------------------------
  // Whole strings.

  // The bytes before the first NUL, at most limit of them.
  function CPrefix(s: seq<byte>, limit: nat): (p: seq<byte>)
    ensures p <= s && |p| <= limit && 0 !in p
    ensures |p| == limit || |p| == |s| || s[|p|] == 0
  {
    if limit == 0 || s == [] || s[0] == 0 then [] else [s[0]] + CPrefix(s[1..], limit - 1)
  }

  lemma {:induction false} CPrefixIs(s: seq<byte>, limit: nat, n: nat)
    requires n <= limit && n <= |s| && 0 !in s[..n]
    requires n == limit || n == |s| || s[n] == 0
    ensures CPrefix(s, limit) == s[..n]
  {
    if n > 0 {
      assert s[..n][0] == s[0] && s[1..][..n - 1] == s[..n][1..];
      CPrefixIs(s[1..], limit - 1, n - 1);
    }
  }

  function ForwardAll(s: seq<byte>): (t: seq<byte>)
    ensures |t| == |s| && forall i :: 0 <= i < |s| ==> t[i] == Forward(s[i])
  {
    seq(|s|, i requires 0 <= i < |s| => Forward(s[i]))
  }

  function ReverseAll(s: seq<byte>): (t: seq<byte>)
    ensures |t| == |s| && forall i :: 0 <= i < |s| ==> t[i] == Reverse(s[i])
  {
    seq(|s|, i requires 0 <= i < |s| => Reverse(s[i]))
  }

  lemma AllInverse(s: seq<byte>)
    ensures ReverseAll(ForwardAll(s)) == s && ForwardAll(ReverseAll(s)) == s
    ensures 0 !in s ==> 0 !in ForwardAll(s) && 0 !in ReverseAll(s)
  {
    forall i | 0 <= i < |s|
      ensures Reverse(Forward(s[i])) == s[i] && Forward(Reverse(s[i])) == s[i]
      ensures s[i] != 0 ==> Forward(s[i]) != 0 && Reverse(s[i]) != 0
    {
      MapsAreInverse(s[i]);
    }
  }

  // What both transforms leave in a buffer of size bytes.
  predicate Terminated(out: seq<byte>, before: seq<byte>, text: seq<byte>) {
    && |out| == |before| && |text| < |out|
    && out[..|text|] == text && out[|text|] == 0 && out[|text| + 1..] == before[|text| + 1..]
  }

  // substitution_transform. The input must be a C string, or fill the buffer.
  method SubstitutionTransform(input: seq<byte>, output: array<byte>)
    requires 0 in input || output.Length <= |input|
    modifies output
    ensures output.Length > 0 ==>
      Terminated(output[..], old(output[..]), ForwardAll(CPrefix(input, output.Length - 1)))
  {
    if output.Length == 0 {
      return;
    }
    ghost var before := output[..];
    var i := 0;
    while input[i] != 0 && i + 1 < output.Length
      invariant 0 <= i < output.Length && i < |input|
      invariant forall k :: 0 <= k < i ==> input[k] != 0 && output[k] == Forward(input[k])
      invariant forall k :: i <= k < output.Length ==> output[k] == before[k]
      decreases output.Length - i
    {
      output[i] := MapForward(input[i]);
      i := i + 1;
    }
    CPrefixIs(input, output.Length - 1, i);
    output[i] := 0;
    assert output[..i] == ForwardAll(input[..i]);
  }

  // substitution_reverse_transform.
  method SubstitutionReverseTransform(input: seq<byte>, output: array<byte>)
    requires 0 in input || output.Length <= |input|
    modifies output
    ensures output.Length > 0 ==>
      Terminated(output[..], old(output[..]), ReverseAll(CPrefix(input, output.Length - 1)))
  {
    if output.Length == 0 {
      return;
    }
    ghost var before := output[..];
    var i := 0;
    while input[i] != 0 && i + 1 < output.Length
      invariant 0 <= i < output.Length && i < |input|
      invariant forall k :: 0 <= k < i ==> input[k] != 0 && output[k] == Reverse(input[k])
      invariant forall k :: i <= k < output.Length ==> output[k] == before[k]
      decreases output.Length - i
    {
      output[i] := MapReverse(input[i]);
      i := i + 1;
    }
    CPrefixIs(input, output.Length - 1, i);
    output[i] := 0;
    assert output[..i] == ReverseAll(input[..i]);
  }
}
