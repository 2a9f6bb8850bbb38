/** Result codes, machine integers and audio formats shared by every component. */
module Common {

  // eaf_result_t. Callbacks are foreign code, so a result may be any integer.
  const OK: int := 0
  const EOF: int := 1
  const INVALID: int := -1
  const STATE: int := -2
  const IO: int := -3
  const UNSUPPORTED: int := -4
  const AGAIN: int := -5

  const TWO32: int := 0x1_0000_0000
  const TWO64: int := 0x1_0000_0000_0000_0000
  const INT32_MIN: int := -0x8000_0000
  const INT32_MAX: int := 0x7fff_ffff
  const INT64_MIN: int := -0x8000_0000_0000_0000
  const INT64_MAX: int := 0x7fff_ffff_ffff_ffff

  type u8 = x: int | 0 <= x < 0x100
  type u16 = x: int | 0 <= x < 0x1_0000
  type u32 = x: int | 0 <= x < TWO32
  type u64 = x: int | 0 <= x < TWO64
  type i16 = x: int | -0x8000 <= x <= 0x7fff
  type i32 = x: int | INT32_MIN <= x <= INT32_MAX
  type i64 = x: int | INT64_MIN <= x <= INT64_MAX

  datatype Option<+T> = None | Some(value: T)
  datatype Result<+T> = Success(value: T) | Failure(code: int)

  function Min(a: int, b: int): int {
    if a < b then a else b
  }

  function Max(a: int, b: int): int {
    if a < b then b else a
  }

  // C's integer division: rounds toward zero.
  function TruncDiv(a: int, b: int): int
    requires b > 0
  {
    if a >= 0 then a / b else -(-a / b)
  }

  // Unsigned machine arithmetic wraps.
  function Sub32(a: u32, b: u32): u32 {
    if a >= b then a - b else a - b + TWO32
  }

  function Add32(a: u32, b: u32): u32 {
    if a + b < TWO32 then a + b else a + b - TWO32
  }

  function Add64(a: u64, b: u64): u64 {
    if a + b < TWO64 then a + b else a + b - TWO64
  }

  const MAX_CHANNELS := 4

  datatype Format = Format(sampleRate: u32, channels: u8, mask: u32)

  function PopCount(x: nat): nat
    decreases x
  {
    if x == 0 then 0 else x % 2 + PopCount(x / 2)
  }

  // eaf_format_valid: the mask names exactly as many of the four known speakers
  // as there are channels.
  predicate FormatValid(f: Format) {
    f.sampleRate != 0 && f.channels != 0 && f.channels <= MAX_CHANNELS && f.mask <= 15 && PopCount(f.mask) == f.channels
  }

  // The same by the bits of the mask.
  lemma SpeakersAreCounted(f: Format)
    ensures FormatValid(f) <==>
      && f.sampleRate > 0 && 1 <= f.channels <= 4 && f.mask < 16
      && f.mask % 2 + f.mask / 2 % 2 + f.mask / 4 % 2 + f.mask / 8 % 2 == f.channels
  {
    hide PopCount;
    if f.mask < 16 {
      LowBit(f.mask);
      LowBit(f.mask / 2);
      LowBit(f.mask / 4);
      LowBit(f.mask / 8);
      NoBits();
    }
  }

  lemma LowBit(x: nat)
    ensures PopCount(x) == x % 2 + PopCount(x / 2)
  {
  }

  lemma NoBits()
    ensures PopCount(0) == 0
  {
  }

  /** eaf_buffer_t: a view of caller-owned sample storage. */
  class Buffer {
    var samples: array?<i32>
    var frameCount: u32
    var capacityFrames: u32
    var capacitySamples: nat
    var format: Format
    var flags: u32
  }

  const FLAG_SILENCE := 1
  const FLAG_UNDERRUN := 2
  const FLAG_EOS := 4
}
