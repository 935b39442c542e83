/**
  The metal-sheet lock value: the size class (0 small, 1 large) in the
  high nibble and the dye colour in the low nibble, narrowed to a byte.
 */
module SheetPacking {

  import opened Blocks

  /** The size class of a packed value, `value >> 4`. */
  function SizeOf(b: bv8): int {
    (b >> 4) as int
  }

  /** The colour of a packed value, `value & 15`. */
  function ColorOf(b: bv8): Dye {
    (b & 15) as int
  }

  /** `(byte) (typeValue << 4 | colorValue)`, computed on 32-bit ints and narrowed to 8 bits. */
  function Pack(typeValue: int, color: Dye): (b: bv8)
    requires 0 <= typeValue <= 1
    ensures b as int == 16 * typeValue + color
  {
    var wide: bv32 := (typeValue as bv32 << 4) | (color as bv32);
    (wide & 0xFF) as bv8
  }

  /** A byte is sixteen times its high nibble plus its low nibble. */
  lemma Nibbles(b: bv8)
    ensures b as int == 16 * SizeOf(b) + ColorOf(b)
  {
  }

  /** Size class and colour are read back from the packed value. */
  lemma PackRoundTrip(typeValue: int, color: Dye)
    requires 0 <= typeValue <= 1
    ensures SizeOf(Pack(typeValue, color)) == typeValue
    ensures ColorOf(Pack(typeValue, color)) == color
  {
    Nibbles(Pack(typeValue, color));
  }

  /** Every byte below 32 is the packing of its own size class and colour. */
  lemma UnpackRoundTrip(b: bv8)
    requires b < 32
    ensures 0 <= SizeOf(b) <= 1
    ensures Pack(SizeOf(b), ColorOf(b)) == b
  {
    Nibbles(b);
  }

  /** Two sheets lock the same value exactly when size class and colour both agree. */
  lemma PackInjective(t1: int, c1: Dye, t2: int, c2: Dye)
    requires 0 <= t1 <= 1 && 0 <= t2 <= 1
    ensures Pack(t1, c1) == Pack(t2, c2) <==> t1 == t2 && c1 == c2
  {
  }
}
