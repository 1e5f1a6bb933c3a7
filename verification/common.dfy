/** Shared vocabulary: optional results, fixed-width integers, big-endian
    byte reads, and the collaborators the chunk model calls but does not
    define (bit unpacking, height-map expansion, the biome table, AIR). */
module Common {

  datatype Option<+T> = None | Some(value: T)

  /** `slice.get(i)`: the element at `i`, or None past the end. */
  function Get<T>(s: seq<T>, i: int): (r: Option<T>)
    ensures r.Some? <==> 0 <= i < |s|
    ensures r.Some? ==> r.value == s[i]
  {
    if 0 <= i < |s| then Some(s[i]) else None
  }

  type Byte = b: int | 0 <= b < 0x100
  type I8 = v: int | -0x80 <= v < 0x80
  type I16 = v: int | -0x8000 <= v < 0x8000
  type I32 = v: int | -0x8000_0000 <= v < 0x8000_0000
  type I64 = v: int | -0x8000_0000_0000_0000 <= v < 0x8000_0000_0000_0000
  type U16 = v: int | 0 <= v < 0x1_0000

  /** Two's-complement reinterpretation of a byte (`read_i8`, `as i8`). */
  function ByteToI8(b: Byte): (v: I8)
    ensures v == if b < 0x80 then b else b - 0x100
    ensures v % 0x100 == b
  {
    if b < 0x80 then b else b - 0x100
  }

  /** `n as i8` for a non-negative machine integer: keep the low 8 bits. */
  function WrapI8(n: nat): (v: I8)
    ensures (v - n) % 0x100 == 0
    ensures n < 0x80 ==> v == n
  {
    ByteToI8(n % 0x100)
  }

  /** `n as i16`: keep the low 16 bits. */
  function WrapI16(n: int): (v: I16)
    ensures (v - n) % 0x1_0000 == 0
    ensures -0x8000 <= n < 0x8000 ==> v == n
  {
    var low := n % 0x1_0000;
    if low < 0x8000 then low else low - 0x1_0000
  }

  /** The unsigned big-endian value of four bytes. */
  function Word(b0: Byte, b1: Byte, b2: Byte, b3: Byte): (u: nat)
    ensures u < 0x1_0000_0000
  {
    b0 as int * 0x100_0000 + b1 as int * 0x1_0000 + b2 as int * 0x100 + b3 as int
  }

  /** Big-endian i32 from four bytes. */
  function BeI32(b0: Byte, b1: Byte, b2: Byte, b3: Byte): I32 {
    var u := Word(b0, b1, b2, b3);
    if u < 0x8000_0000 then u else u - 0x1_0000_0000
  }

  /** Big-endian i64 from eight bytes. */
  function BeI64(s: seq<Byte>): I64
    requires |s| == 8
  {
    var u := Word(s[0], s[1], s[2], s[3]) * 0x1_0000_0000 + Word(s[4], s[5], s[6], s[7]);
    if u < 0x8000_0000_0000_0000 then u else u - 0x1_0000_0000_0000_0000
  }

  /** `(&buf[off..]).read_i32::<BigEndian>().ok()`: None when fewer than
      four bytes remain. */
  function ReadI32(buf: seq<Byte>, off: nat): (r: Option<I32>)
    requires off <= |buf|
    ensures r.Some? <==> off + 4 <= |buf|
  {
    if off + 4 <= |buf| then Some(BeI32(buf[off], buf[off + 1], buf[off + 2], buf[off + 3]))
    else None
  }

  /** The four big-endian bytes of an i32: the inverse of BeI32. */
  function EncodeI32(v: I32): (r: seq<Byte>)
    ensures |r| == 4 && BeI32(r[0], r[1], r[2], r[3]) == v
  {
    EncodeWord(if v < 0 then v + 0x1_0000_0000 else v)
  }

  /** The eight big-endian bytes of an i64: the inverse of BeI64. */
  function EncodeI64(v: I64): (r: seq<Byte>)
    ensures |r| == 8 && BeI64(r) == v
  {
    var u := if v < 0 then v + 0x1_0000_0000_0000_0000 else v;
    var hi, lo := u / 0x1_0000_0000, u % 0x1_0000_0000;
    EncodeWord(hi) + EncodeWord(lo)
  }

  function EncodeWord(u: nat): (r: seq<Byte>)
    requires u < 0x1_0000_0000
    ensures |r| == 4 && Word(r[0], r[1], r[2], r[3]) == u
  {
    var b0, r0 := u / 0x100_0000, u % 0x100_0000;
    var b1, r1 := r0 / 0x1_0000, r0 % 0x1_0000;
    var b2, b3 := r1 / 0x100, r1 % 0x100;
    [b0, b1, b2, b3]
  }

  /** The decoding framework's `invalid_type` error: what it found, and the
      visitor's `expecting` text. */
  datatype DeError = InvalidType(found: string, expected: string)

  /** Packed 64-bit words as they appear on the wire; what they mean is up
      to the external unpackers below. */
  datatype PackedBits = PackedBits(words: seq<I64>)

  /** One biome of the external biome enumeration, by its position there. */
  datatype Biome = Biome(ordinal: nat)

  /** A namespaced block name and its property map. */
  datatype Block = Block(name: string, properties: map<string, string>)

  /** Unpacked block states of one 16x16x16 section, addressed
      `(y * 16 + z) * 16 + x`. */
  type StateBuffer = s: seq<U16> | |s| == 4096 witness Zeros(4096)

  /** A 16x16 per-column height map, addressed `z * 16 + x`. */
  type HeightBuffer = s: seq<U16> | |s| == 256 witness Zeros(256)

  /** A signed 16x16 height map as produced by expand_heightmap. */
  type SignedHeightBuffer = s: seq<I16> | |s| == 256 witness Zeros(256)

  function Zeros(n: nat): (s: seq<U16>)
    ensures |s| == n && forall i :: 0 <= i < n ==> s[i] == 0
  {
    seq(n, _ => 0)
  }

  /** The collaborators this model calls but that live elsewhere in the
      repository. Only their result shapes are known. */
  datatype External = External(
    /// bits_per_block(palette_len)
    bitsPerBlock: nat -> nat,
    /// PackedBits::unpack_into(bits, buf) (fills the whole 4096-entry buffer)
    unpackInto: (PackedBits, nat) -> StateBuffer,
    /// PackedBits::unpack_heights_into(buf) (fills the whole 256-entry buffer)
    unpackHeightsInto: PackedBits -> HeightBuffer,
    /// PackedBits::unpack_blockstates(bits, buf), the pre-1.18 convention
    unpackBlockstates: (PackedBits, nat) -> StateBuffer,
    /// expand_heightmap(data, y_min, data_version)
    expandHeightmap: (PackedBits, int, int) -> SignedHeightBuffer,
    /// Biome::try_from(code).ok()
    biomeFromCode: int -> Option<Biome>,
    /// the fixed AIR block returned for sections without block states
    air: Block)
}
