/**
 * The 24-bit SSI frame sent by the MT6701 and its decoding.
 *
 * A frame is three bytes, most significant first, packed into a 32-bit
 * word whose top byte is always zero:
 *
 *   bits 23..10  RAW14   the 14-bit angular position
 *   bits  9..6   MG_RAW  the 4-bit magnetic/diagnostic nibble
 *   bits  5..0   CRC_RX  the 6-bit check value over bits 23..6
 *
 * Words are modelled as bv32 and bytes as bv8, so the shifts and masks
 * are those of the driver, with the same widths.
 */
module Frame {

  datatype Option<T> = None | Some(value: T)

  const FRAME_MASK: bv32 := 0x00FF_FFFF
  const PAYLOAD_MASK: bv32 := 0x0003_FFFF
  const RAW14_MASK: bv32 := 0x3FFF
  const ANGLE_RESOLUTION: nat := 16384

  /** A value the 6-bit CRC can produce. */
  type Crc6Value = c: bv8 | c < 64

  /**
   * The CRC6 primitive `CRC6::CalculateBits(payload, 18)`. Its algorithm is
   * not part of this model: every decoding function takes it as a parameter,
   * and all that is known of it is that its result has six bits.
   */
  type Crc6 = bv32 -> Crc6Value

  /** Frame assembly in the completion handler: b0 is the first byte received. */
  function Assemble(b0: bv8, b1: bv8, b2: bv8): (f: bv32)
    ensures f <= FRAME_MASK
    ensures f >> 16 == b0 as bv32
    ensures (f >> 8) & 0xFF == b1 as bv32
    ensures f & 0xFF == b2 as bv32
  {
    (((b0 as bv32) << 16) | ((b1 as bv32) << 8) | (b2 as bv32)) & FRAME_MASK
  }

  /** The 14-bit position field `(frame24 >> 10) & 0x3FFF`. */
  function Raw14(f: bv32): (r: bv32)
    ensures r <= RAW14_MASK
  {
    (f >> 10) & RAW14_MASK
  }

  /** The diagnostic nibble `(uint8)((frame24 >> 6) & 0x0F)`. */
  function MgRaw(f: bv32): (r: bv8)
    ensures r <= 0x0F
  {
    ((f >> 6) & 0x0F) as bv8
  }

  /** The received check value `(uint8)(frame24 & 0x3F)`. */
  function CrcRx(f: bv32): (r: bv8)
    ensures r <= 0x3F
  {
    (f & 0x3F) as bv8
  }

  /** The 18 bits the check value covers, `(frame24 >> 6) & 0x3FFFF`. */
  function Payload(f: bv32): (r: bv32)
    ensures r <= PAYLOAD_MASK
  {
    (f >> 6) & PAYLOAD_MASK
  }

  /**
   * A frame is intact when its received check value is the CRC6 of its
   * payload; for a 24-bit frame that holds exactly when it is the frame the
   * sensor sends for its own position and nibble.
   */
  function CheckPasses(f: bv32, crc: Crc6): (ok: bool)
    ensures f <= FRAME_MASK ==> (ok <==> f == EncodeFrame(Raw14(f), MgRaw(f), crc))
  {
    CheckIffEncoded(f, crc);
    CrcRx(f) == crc(Payload(f))
  }

  /**
   * DecodeFrame: accepts a 24-bit frame exactly when it is the sensor's
   * encoding of its own fields, and then yields its 14-bit position field
   * (the driver scales it to radians).
   */
  function DecodeFrame(f: bv32, crc: Crc6): (r: Option<bv32>)
    ensures f <= FRAME_MASK ==> (r.Some? <==> f == EncodeFrame(Raw14(f), MgRaw(f), crc))
    ensures r.Some? ==> r.value == Raw14(f) && r.value <= RAW14_MASK
  {
    if !CheckPasses(f, crc) then None else Some(Raw14(f))
  }

  /** The frame word with the given fields in place. */
  function Pack(raw14: bv32, mg: bv8, check: bv8): (f: bv32)
    requires raw14 <= RAW14_MASK && mg <= 0x0F && check <= 0x3F
    ensures f <= FRAME_MASK
    ensures Raw14(f) == raw14
    ensures MgRaw(f) == mg
    ensures CrcRx(f) == check
  {
    (raw14 << 10) | ((mg as bv32) << 6) | (check as bv32)
  }

  /**
   * The frame the sensor sends for a position and a nibble: the reference
   * encoding against which the decoder is checked.
   */
  function EncodeFrame(raw14: bv32, mg: bv8, crc: Crc6): (f: bv32)
    requires raw14 <= RAW14_MASK && mg <= 0x0F
    ensures f <= FRAME_MASK
  {
    Pack(raw14, mg, crc((raw14 << 4) | (mg as bv32)))
  }

  /** The three fields put back in place give the frame again. */
  lemma Reassembly(f: bv32)
    requires f <= FRAME_MASK
    ensures (Raw14(f) << 10) | ((MgRaw(f) as bv32) << 6) | (CrcRx(f) as bv32) == f
  {
  }

  /** The CRC payload is exactly the position field followed by the nibble. */
  lemma PayloadIsPositionAndNibble(f: bv32)
    ensures Payload(f) == (Raw14(f) << 4) | (MgRaw(f) as bv32)
  {
  }

  /** The three shifted bytes already fit in 24 bits, so the `FRAME_MASK` step changes nothing. */
  lemma AssembledFitsFrame(b0: bv8, b1: bv8, b2: bv8)
    ensures ((b0 as bv32) << 16) | ((b1 as bv32) << 8) | (b2 as bv32) == Assemble(b0, b1, b2)
  {
  }

  /** The payload of a packed frame is its position followed by its nibble. */
  lemma PackPayload(raw14: bv32, mg: bv8, check: bv8)
    requires raw14 <= RAW14_MASK && mg <= 0x0F && check <= 0x3F
    ensures Payload(Pack(raw14, mg, check)) == (raw14 << 4) | (mg as bv32)
  {
    PayloadIsPositionAndNibble(Pack(raw14, mg, check));
  }

  /** Decoding the frame the sensor sends for a position and nibble gives that position back. */
  lemma DecodeEncode(raw14: bv32, mg: bv8, crc: Crc6)
    requires raw14 <= RAW14_MASK && mg <= 0x0F
    ensures Raw14(EncodeFrame(raw14, mg, crc)) == raw14
    ensures MgRaw(EncodeFrame(raw14, mg, crc)) == mg
    ensures DecodeFrame(EncodeFrame(raw14, mg, crc), crc) == Some(raw14)
  {
    PackPayload(raw14, mg, crc((raw14 << 4) | (mg as bv32)));
  }

  /**
   * A 24-bit frame's check value matches the CRC6 of its payload exactly
   * when the frame is the encoding of its own position and nibble: every
   * other frame fails the check.
   */
  lemma CheckIffEncoded(f: bv32, crc: Crc6)
    ensures f <= FRAME_MASK ==> (CrcRx(f) == crc(Payload(f)) <==> f == EncodeFrame(Raw14(f), MgRaw(f), crc))
  {
    if f <= FRAME_MASK {
      FrameIsPackOfFields(f);
      EncodeOfFields(f, crc);
      PackInjective(Raw14(f), MgRaw(f), CrcRx(f), crc(Payload(f)));
    }
  }

  /** A 24-bit frame is the packing of its own three fields. */
  lemma FrameIsPackOfFields(f: bv32)
    requires f <= FRAME_MASK
    ensures f == Pack(Raw14(f), MgRaw(f), CrcRx(f))
  {
    Reassembly(f);
  }

  /** Re-encoding the fields of a frame recomputes the CRC6 over that frame's payload. */
  lemma EncodeOfFields(f: bv32, crc: Crc6)
    ensures EncodeFrame(Raw14(f), MgRaw(f), crc) == Pack(Raw14(f), MgRaw(f), crc(Payload(f)))
  {
    PayloadIsPositionAndNibble(f);
  }

  /** Two frames with the same position and nibble differ exactly where their check values do. */
  lemma PackInjective(raw14: bv32, mg: bv8, c1: bv8, c2: bv8)
    requires raw14 <= RAW14_MASK && mg <= 0x0F && c1 <= 0x3F && c2 <= 0x3F
    ensures Pack(raw14, mg, c1) == Pack(raw14, mg, c2) <==> c1 == c2
  {
  }

  /** The fields of the assembled frame, in terms of the received bytes. */
  lemma FieldsOfBytes(b0: bv8, b1: bv8, b2: bv8)
    ensures Raw14(Assemble(b0, b1, b2)) == ((b0 as bv32) << 6) | ((b1 as bv32) >> 2)
    ensures MgRaw(Assemble(b0, b1, b2)) == ((b1 & 0x03) << 2) | (b2 >> 6)
    ensures CrcRx(Assemble(b0, b1, b2)) == b2 & 0x3F
  {
  }

  /** Sending a 24-bit frame most significant byte first and assembling it gives it back. */
  lemma AssembleOfBytes(f: bv32)
    requires f <= FRAME_MASK
    ensures Assemble(((f >> 16) & 0xFF) as bv8, ((f >> 8) & 0xFF) as bv8, (f & 0xFF) as bv8) == f
  {
  }

  /**
   * The angle in units of pi radians: angle_rad = RAW14 * (2 pi / 16384)
   * = pi * RAW14 / 8192. The driver computes it in single precision.
   */
  function AngleInHalfTurns(raw14: nat): (a: real)
    requires raw14 < ANGLE_RESOLUTION
    ensures 0.0 <= a < 2.0
  {
    raw14 as real / (ANGLE_RESOLUTION / 2) as real
  }

  /** The position field of any frame has an angle in [0, 2) half turns. */
  lemma PositionAngleInRange(f: bv32)
    ensures Raw14(f) as nat < ANGLE_RESOLUTION
    ensures 0.0 <= AngleInHalfTurns(Raw14(f) as nat) < 2.0
  {
  }

  /** Position 0 is angle 0, 8192 is pi, 16383 is 2 pi - 2 pi / 16384. */
  lemma AngleBoundaries()
    ensures AngleInHalfTurns(0) == 0.0
    ensures AngleInHalfTurns(8192) == 1.0
    ensures AngleInHalfTurns(16383) == 2.0 - 2.0 / ANGLE_RESOLUTION as real
  {
  }
}
