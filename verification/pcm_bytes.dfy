/** Signed PCM samples of 2, 3 or 4 bytes, as the byte-wise converters of apps/lms/lms_client.c and
    apps/decoders/dec_pcm.c widen them to 32 bits. */
module PcmBytes {
  import opened ByteStream
  import opened Common

  // Least significant byte first.
  function LittleEndian(b: seq<u8>): (r: nat)
    decreases |b|
  {
    if b == [] then 0 else b[0] + 256 * LittleEndian(b[1..])
  }

  predicate Width(n: nat) {
    2 <= n <= 4
  }

  // 2^(8n), and the factor that moves an n-byte sample to the top of 32 bits.
  function Full(n: nat): nat
    requires Width(n)
  {
    if n == 2 then 0x1_0000 else if n == 3 then 0x100_0000 else TWO32
  }

  function Scale(n: nat): nat
    requires Width(n)
  {
    if n == 2 then 0x1_0000 else if n == 3 then 0x100 else 1
  }

  function Word(b: seq<u8>, bigEndian: bool): nat {
    if bigEndian then BigEndian(b) else LittleEndian(b)
  }

  lemma WordFits(b: seq<u8>, bigEndian: bool)
    requires Width(|b|)
    ensures Word(b, bigEndian) < Full(|b|)
  {
    if |b| == 2 {
      LittleTwo(b);
      BigTwo(b);
    } else if |b| == 3 {
      LittleTwo(b[1..]);
      BigTwo(b[..2]);
    } else {
      assert LittleEndian(b[1..]) == b[1] + 256 * LittleEndian(b[2..]) by { assert b[1..][1..] == b[2..]; }
      LittleTwo(b[2..]);
      assert BigEndian(b[..3]) == BigEndian(b[..2]) * 256 + b[2] by { assert b[..3][..2] == b[..2]; }
      BigTwo(b[..2]);
    }
  }

  lemma LittleTwo(b: seq<u8>)
    requires |b| == 2
    ensures LittleEndian(b) == b[0] as int + 256 * (b[1] as int)
  {
    assert LittleEndian(b[1..]) == b[1] + 256 * LittleEndian(b[1..][1..]);
    assert b[1..][1..] == [];
  }

  lemma BigTwo(b: seq<u8>)
    requires |b| == 2
    ensures BigEndian(b) == (b[0] as int) * 256 + b[1]
  {
    assert BigEndian(b[..1]) == BigEndian(b[..1][..0]) * 256 + b[0];
    assert b[..1][..0] == [];
  }

  // Two's complement in n bytes.
  function Signed(v: nat, n: nat): int
    requires Width(n)
  {
    if 2 * v >= Full(n) then v - Full(n) else v
  }

  lemma WidenedFits(v: nat, n: nat)
    requires Width(n) && v < Full(n)
    ensures INT32_MIN <= Signed(v, n) * Scale(n) <= INT32_MAX
  {
  }

  // One sample, widened to Q1.31.
  function Sample(b: seq<u8>, bigEndian: bool): i32
    requires Width(|b|)
  {
    WordFits(b, bigEndian);
    WidenedFits(Word(b, bigEndian), |b|);
    Signed(Word(b, bigEndian), |b|) * Scale(|b|)
  }

  // Widening moves the sample's own bits to the top of the word and leaves zeros below.
  lemma SampleIsLeftJustified(b: seq<u8>, bigEndian: bool)
    requires Width(|b|)
    ensures Sample(b, bigEndian) == Signed(Word(b, bigEndian) * Scale(|b|), 4)
  {
    WordFits(b, bigEndian);
  }

  // How a signed sample of 16, 24 or 32 bits is stored: its two's complement, byte by byte.
  function Stored(x: int, width: nat, bigEndian: bool): (r: seq<u8>)
    requires Width(width)
    ensures |r| == width
  {
    if width == 2 then
      var v: nat := x % 0x1_0000;
      if bigEndian then [v / 256, v % 256] else [v % 256, v / 256]
    else if width == 3 then
      var v: nat := x % 0x100_0000;
      if bigEndian then [v / 0x1_0000, v / 256 % 256, v % 256] else [v % 256, v / 256 % 256, v / 0x1_0000]
    else
      var v: nat := x % 0x1_0000_0000;
      if bigEndian then [v / 0x100_0000, v / 0x1_0000 % 256, v / 256 % 256, v % 256]
      else [v % 256, v / 256 % 256, v / 0x1_0000 % 256, v / 0x100_0000]
  }

  // The range of a sample of so many bytes, and what it is worth in Q1.31.
  predicate InRange(x: int, width: nat) {
    if width == 2 then -0x8000 <= x <= 0x7fff else if width == 3 then -0x80_0000 <= x <= 0x7f_ffff else INT32_MIN <= x <= INT32_MAX
  }

  function Worth(x: int, width: nat): int {
    if width == 2 then x * 0x1_0000 else if width == 3 then x * 0x100 else x
  }

  /** Every sample, stored in either byte order, reads as itself at the top of 32 bits. */
  lemma StoredReads(x: int, width: nat, bigEndian: bool)
    requires Width(width) && InRange(x, width)
    ensures Sample(Stored(x, width, bigEndian), bigEndian) == Worth(x, width)
  {
    StoredWord(x, width, bigEndian);
  }

  lemma StoredWord(x: int, width: nat, bigEndian: bool)
    requires Width(width)
    ensures Word(Stored(x, width, bigEndian), bigEndian) == x % Full(width)
  {
    hide LittleEndian, BigEndian;
    WordOfBytes(Stored(x, width, bigEndian));
    Digits(x % Full(width));
  }

  // A word, by its bytes.
  lemma WordOfBytes(b: seq<u8>)
    requires Width(|b|)
    ensures |b| == 2 ==> Word(b, true) == 256 * b[0] as int + b[1] as int && Word(b, false) == b[0] as int + 256 * b[1] as int
    ensures |b| == 3 ==> Word(b, true) == 0x1_0000 * b[0] as int + 256 * b[1] as int + b[2] as int
    ensures |b| == 3 ==> Word(b, false) == b[0] as int + 256 * b[1] as int + 0x1_0000 * b[2] as int
    ensures |b| == 4 ==> Word(b, true) == 0x100_0000 * b[0] as int + 0x1_0000 * b[1] as int + 256 * b[2] as int + b[3] as int
    ensures |b| == 4 ==> Word(b, false) == b[0] as int + 256 * b[1] as int + 0x1_0000 * b[2] as int + 0x100_0000 * b[3] as int
  {
    if |b| == 2 {
      LittleTwo(b);
      BigTwo(b);
    } else if |b| == 3 {
      LittleTwo(b[1..]);
      BigTwo(b[..2]);
    } else {
      assert LittleEndian(b[1..]) == b[1] + 256 * LittleEndian(b[2..]) by { assert b[1..][1..] == b[2..]; }
      LittleTwo(b[2..]);
      assert BigEndian(b[..3]) == BigEndian(b[..2]) * 256 + b[2] by { assert b[..3][..2] == b[..2]; }
      BigTwo(b[..2]);
    }
  }

  lemma Digits(v: nat)
    requires v < TWO32
    ensures v < 0x1_0000 ==> v == v % 256 + 256 * (v / 256)
    ensures v < 0x100_0000 ==> v == v % 256 + 256 * (v / 256 % 256) + 0x1_0000 * (v / 0x1_0000)
    ensures v == v % 256 + 256 * (v / 256 % 256) + 0x1_0000 * (v / 0x1_0000 % 256) + 0x100_0000 * (v / 0x100_0000)
  {
    assert v / 0x1_0000 == v / 256 / 256 && v / 0x100_0000 == v / 256 / 256 / 256;
  }

  // The same sample, its bytes in either order.
  lemma {:induction false} ReversedBytes(b: seq<u8>, r: seq<u8>)
    requires |b| == |r| && forall i :: 0 <= i < |b| ==> r[i] == b[|b| - 1 - i]
    ensures BigEndian(b) == LittleEndian(r)
    decreases |b|
  {
    if b != [] {
      ReversedBytes(b[..|b| - 1], r[1..]);
    }
  }
}
