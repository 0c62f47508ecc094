/**
 * The 4-bit magnetic/diagnostic nibble MG reported with every sample:
 *
 *   bit 3        overspeed
 *   bit 2        push (mechanical button) detected
 *   bits 1..0    magnetic field strength code: 1 = too strong, 2 = too weak
 *
 * The driver's getters are these projections applied to the last stored
 * nibble, or to 0 when no sample has been stored.
 */
module Diagnostics {

  const OVERSPEED_BIT: bv8 := 0x08
  const PUSH_BIT: bv8 := 0x04
  const STRENGTH_MASK: bv8 := 0x03

  /** Bit 3: the nibble, read as a number from 0 to 15, is at least 8. */
  function Overspeed(mg: bv8): (set3: bool)
    ensures set3 <==> (mg & 0x0F) >= 8
  {
    (mg & OVERSPEED_BIT) != 0
  }

  /** Bit 2: the nibble's low three bits, read as a number, are at least 4. */
  function PushDetected(mg: bv8): (set2: bool)
    ensures set2 <==> (mg & 0x07) >= 4
  {
    (mg & PUSH_BIT) != 0
  }

  function MagnetStrength(mg: bv8): (code: bv8)
    ensures code <= 3
  {
    mg & STRENGTH_MASK
  }

  /** Strength code 1: the nibble is 1 modulo 4. */
  function FieldTooStrong(mg: bv8): (strong: bool)
    ensures strong <==> mg % 4 == 1
  {
    MagnetStrength(mg) == 1
  }

  /** Strength code 2: the nibble is 2 modulo 4. */
  function FieldTooWeak(mg: bv8): (weak: bool)
    ensures weak <==> mg % 4 == 2
  {
    MagnetStrength(mg) == 2
  }

  /** The nibble that carries the given flags and strength code. */
  function Nibble(overspeed: bool, push: bool, strength: bv8): (mg: bv8)
    requires strength <= 3
    ensures mg <= 0x0F
  {
    (if overspeed then OVERSPEED_BIT else 0) | (if push then PUSH_BIT else 0) | strength
  }

  /** The projections lose nothing of the nibble: they rebuild its low four bits. */
  lemma NibbleRoundTrip(mg: bv8)
    ensures Nibble(Overspeed(mg), PushDetected(mg), MagnetStrength(mg)) == mg & 0x0F
  {
  }

  /** Each projection reads back exactly the part of the nibble it names. */
  lemma ProjectionsOfNibble(overspeed: bool, push: bool, strength: bv8)
    requires strength <= 3
    ensures Overspeed(Nibble(overspeed, push, strength)) == overspeed
    ensures PushDetected(Nibble(overspeed, push, strength)) == push
    ensures MagnetStrength(Nibble(overspeed, push, strength)) == strength
    ensures FieldTooStrong(Nibble(overspeed, push, strength)) <==> strength == 1
    ensures FieldTooWeak(Nibble(overspeed, push, strength)) <==> strength == 2
  {
  }

  /** A field is never reported as both too strong and too weak. */
  lemma StrongAndWeakExclusive(mg: bv8)
    ensures !(FieldTooStrong(mg) && FieldTooWeak(mg))
  {
  }

  /** Only the low four bits matter, so storing the nibble masked changes no answer. */
  lemma ProjectionsIgnoreHighBits(mg: bv8)
    ensures Overspeed(mg & 0x0F) == Overspeed(mg)
    ensures PushDetected(mg & 0x0F) == PushDetected(mg)
    ensures MagnetStrength(mg & 0x0F) == MagnetStrength(mg)
  {
  }

  /** The default nibble 0, reported when no sample exists, raises no flag. */
  lemma NoSampleNoFlags()
    ensures !Overspeed(0) && !PushDetected(0) && !FieldTooStrong(0) && !FieldTooWeak(0)
    ensures MagnetStrength(0) == 0
  {
  }

  /** One set bit raises exactly the flag that bit stands for. */
  lemma SingleBitNibbles()
    ensures Overspeed(0x08) && !PushDetected(0x08) && !FieldTooStrong(0x08) && !FieldTooWeak(0x08)
    ensures PushDetected(0x04) && !Overspeed(0x04) && !FieldTooStrong(0x04) && !FieldTooWeak(0x04)
    ensures FieldTooStrong(0x01) && !Overspeed(0x01) && !PushDetected(0x01) && !FieldTooWeak(0x01)
    ensures FieldTooWeak(0x02) && !Overspeed(0x02) && !PushDetected(0x02) && !FieldTooStrong(0x02)
  {
  }
}
