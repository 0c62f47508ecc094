# MT6701 SSI angle sensor driver — Dafny model

This project models the core of the MT6701 driver (`MT6701.hpp`): a single
class that polls a 14-bit magnetic rotary-position sensor over a synchronous
serial bus, keeping one transfer in flight and re-arming the next one from
the completion handler, decodes each 24-bit frame, checks it against its
6-bit CRC, and publishes valid samples through a sequence-lock cache that
readers poll for the angle and the diagnostic nibble.

The model has four modules:

- `Frame` (Frame.dfy) — the pure bit arithmetic: assembly of the three
  received bytes into `frame24`, the fields RAW14 (bits 23..10), MG_RAW
  (bits 9..6) and CRC_RX (bits 5..0), the 18-bit CRC payload and
  `DecodeFrame`. Words are `bv32` and bytes `bv8`, so every shift and mask
  is the driver's own. The CRC6 primitive is a parameter `crc: Crc6`, a total
  function whose result is below 64. A reference encoder `EncodeFrame` gives
  the frame the sensor sends, and the decoder is proved against it.
- `Diagnostics` (Diagnostics.dfy) — the projections of the nibble behind
  `IsOverspeed`, `IsPushDetected`, `IsFieldTooStrong`, `IsFieldTooWeak` and
  `GetMagnetStrength`, with a nibble builder they are proved to invert.
- `Driver` (Driver.dfy) — class `Mt6701` with the fields `cacheSeq`,
  `cacheValid`, `cacheData`, `running`, `transferPending` and the
  chip-select level `csLevel`. Ghost fields record the stored samples
  (`history`), every level written to the select line (`csWrites`), and
  count requests, rejected requests, completions and faults.
  `Valid()` is the invariant every event keeps. The counter is even and
  equals twice the number of stores, modulo 2^32. The cache holds the last
  stored sample. Every request is either rejected, completed or the one
  pending transfer. The select line is asserted exactly while a transfer is
  pending.
- `Scenarios` (Scenarios.dfy) — short runs of the driver through several
  events, one behaviour of the pipeline each.

What the bus transport tells the driver is a parameter. `RequestStatus`
says whether `ReadAndWrite` accepted the request. `OnTransferDone` receives
the completion status and the three bytes in the receive buffer, plus the
answer the bus gives if the handler re-arms. The transport is taken to call
the completion handler only for a request it accepted and that is still
outstanding, never for a rejected one, so `OnTransferDone` requires
`transferPending`. `ASSERT_FROM_CALLBACK(false, …)` adds one to the ghost
counter `faults`; it does not abort.

The angle is carried as RAW14. `Frame.AngleInHalfTurns` gives the exact real
value of the driver's scaling: angle_rad = RAW14 · 2π/16384, which is
π · RAW14/8192 (the driver computes a rounded single-precision product).

Two behaviours of the code are easy to miss, and the model keeps both:

- One might expect transfer-pending to be false whenever polling is stopped
  and no completion is being processed. The code allows the state
  {stopped, pending} from `Stop` until the outstanding completion arrives,
  and a `Start` in that state arms nothing.
- `ReadAndWrite` rejecting a request raises one fault, or two in interrupt
  context: there the second check (pending false after issuance,
  MT6701.hpp:220-224) fires as well. `IssuedOneRequest` counts them.

## Model

| member | source | states |
|---|---|---|
| Frame.Assemble | MT6701.hpp:175-178 | the frame is below 2^24 and carries b0, b1, b2 as its bytes 2, 1, 0 (first byte received is most significant) |
| Frame.AssembleOfBytes | MT6701.hpp:175-178 | splitting any 24-bit frame into its three bytes and assembling them gives the frame back |
| Frame.AssembledFitsFrame | MT6701.hpp:175-178 | the OR of the three shifted bytes is already the assembled frame, so the `&= FRAME_MASK` step changes nothing |
| Frame.Raw14 | MT6701.hpp:149 | the position field is at most 16383 |
| Frame.MgRaw | MT6701.hpp:181 | the diagnostic nibble is at most 15 |
| Frame.CrcRx | MT6701.hpp:141 | the received check value is at most 63 |
| Frame.Payload | MT6701.hpp:142-143 | the CRC payload fits in 18 bits |
| Frame.Reassembly | MT6701.hpp:141-149 | RAW14 shifted left by 10, OR-ed with MG_RAW shifted left by 6 and with CRC_RX, is the frame again, for every 24-bit frame |
| Frame.PayloadIsPositionAndNibble | MT6701.hpp:143 | the payload `(frame24>>6) & 0x3FFFF` is RAW14 shifted left by 4, OR-ed with MG_RAW |
| Frame.FieldsOfBytes | MT6701.hpp:175-181 | RAW14, MG_RAW and CRC_RX in terms of the three received bytes |
| Frame.CheckPasses | MT6701.hpp:141-147 | a 24-bit frame's CRC_RX equals the CRC6 of its payload exactly when the frame is the sensor's encoding of its own position and nibble |
| Frame.DecodeFrame | MT6701.hpp:139-152 | a 24-bit frame is accepted exactly when it is the sensor's encoding of its own position and nibble, and an accepted frame yields its RAW14, at most 16383 |
| Frame.DecodeEncode | MT6701.hpp:139-152 | decoding the frame the sensor sends for a position and nibble yields that position, and the nibble field is that nibble |
| Frame.CheckIffEncoded | MT6701.hpp:141-147 | for every 24-bit frame and every CRC6, CRC_RX matching the CRC6 of the payload is equivalent to the frame equalling the encoding of its own fields, so every other frame is rejected |
| Frame.AngleInHalfTurns | MT6701.hpp:87-90 | RAW14 / 8192, the angle in units of π, lies in [0, 2) |
| Frame.PositionAngleInRange | MT6701.hpp:149-150 | the position field of any frame is below 16384, and its angle lies in [0, 2) in units of π |
| Frame.AngleBoundaries | MT6701.hpp:150 | position 0 is angle 0, 8192 is π, 16383 is 2π − 2π/16384 |
| Diagnostics.Overspeed | MT6701.hpp:63 | bit 3 is set exactly when the nibble, read as a number from 0 to 15, is at least 8 |
| Diagnostics.PushDetected | MT6701.hpp:65 | bit 2 is set exactly when the nibble's low three bits, read as a number, are at least 4 |
| Diagnostics.FieldTooStrong | MT6701.hpp:67-70 | the strength code is 1 exactly when the nibble is 1 modulo 4 |
| Diagnostics.FieldTooWeak | MT6701.hpp:72-75 | the strength code is 2 exactly when the nibble is 2 modulo 4 |
| Diagnostics.MagnetStrength | MT6701.hpp:77-80 | the strength code is at most 3 |
| Diagnostics.NibbleRoundTrip | MT6701.hpp:63-80 | the overspeed flag, push flag and strength code rebuild the low four bits of the nibble |
| Diagnostics.ProjectionsOfNibble | MT6701.hpp:63-80 | each getter reads back exactly the flag or code put into a nibble; too-strong holds iff the code is 1, too-weak iff it is 2 |
| Diagnostics.StrongAndWeakExclusive | MT6701.hpp:67-75 | too-strong and too-weak never hold together |
| Diagnostics.ProjectionsIgnoreHighBits | MT6701.hpp:158 | masking the nibble with 0x0F when storing changes no getter's answer |
| Diagnostics.NoSampleNoFlags | MT6701.hpp:129-137 | the default nibble 0 raises no flag and gives strength 0 |
| Diagnostics.SingleBitNibbles | MT6701.hpp:63-75 | nibbles 0b1000, 0b0100, 0b0001, 0b0010 raise overspeed, push, too-strong, too-weak respectively and nothing else |
| Driver.Increment | MT6701.hpp:156-159 | `fetch_add(1u)` on a uint32: one more, except that 2^32 − 1 wraps to 0 |
| Driver.SeqAfterIsEven | MT6701.hpp:156-159 | after any number of stores the counter is even, wrap-around included |
| Driver.StoreStep | MT6701.hpp:156-159 | the two wrapping increments of one store take the counter after n stores to the counter after n + 1 |
| Driver.Mt6701.constructor | MT6701.hpp:231-237 | the initial state: not running, nothing pending, select released and that release the only select-line write so far, cache empty with counter 0 |
| Driver.Mt6701.Start | MT6701.hpp:42-49 | sets running; a call that finds running already set changes nothing else; from stopped and idle it issues exactly one request; from stopped with a transfer still pending it issues none |
| Driver.Mt6701.Stop | MT6701.hpp:51 | clears running and changes nothing else: pending, select line and counters stay |
| Driver.Mt6701.TryStartTransfer | MT6701.hpp:195-225 | does nothing when stopped or pending; otherwise asserts the select line and issues exactly one request; accepted: pending with the select line low; rejected: select high, pending and running cleared, one fault (two in interrupt context); the invariant is kept |
| Driver.Mt6701.OnTransferDone | MT6701.hpp:163-193 | one completion is counted and the handler's first select-line write is a release, on every path; on error: pending and running cleared, one fault, no request, cache unchanged; on success: the decoded sample is stored iff the CRC matches (otherwise the cache is unchanged), pending is cleared, and one request is issued iff running was still set, its select-line writes following the release |
| Driver.Mt6701.DecodeAndStore | MT6701.hpp:180-185 | appends the frame's RAW14 and nibble to the stored samples iff its check passes; on a mismatch the counter, flag and data are unchanged |
| Driver.Mt6701.StoreSample | MT6701.hpp:154-161 | the counter rises by exactly 2 modulo 2^32, the valid flag is set, the stored sample is the position with the nibble masked to 4 bits, and running, pending and the select line are untouched |
| Driver.Mt6701.LoadCache | MT6701.hpp:106-127 | returns EMPTY, leaving the caller's data as passed, iff nothing was ever stored; otherwise OK with exactly the last stored sample |
| Driver.Mt6701.ReadRawMg | MT6701.hpp:129-137 | the nibble of the last stored sample, or 0 when there is none; always below 16 |
| Driver.Mt6701.ReadAngleRaw14 | MT6701.hpp:53-61 | the position of the last stored sample, or the default 0 when there is none |
| Driver.Mt6701.IsOverspeed | MT6701.hpp:63 | true iff a sample exists and its nibble has bit 3 set |
| Driver.Mt6701.IsPushDetected | MT6701.hpp:65 | true iff a sample exists and its nibble has bit 2 set |
| Driver.Mt6701.IsFieldTooStrong | MT6701.hpp:67-70 | true iff a sample exists and the low two bits of its nibble are 1 |
| Driver.Mt6701.IsFieldTooWeak | MT6701.hpp:72-75 | true iff a sample exists and the low two bits of its nibble are 2 |
| Driver.Mt6701.GetMagnetStrength | MT6701.hpp:77-80 | the strength code of the last sample, 0 without one; at most 3 |
| Driver.Mt6701.GetRawMg | MT6701.hpp:82 | the nibble of the last sample, 0 without one; at most 15 |
| Scenarios.StartArmsOneTransfer | MT6701.hpp:42-49 | starting an idle driver arms one transfer, and a second Start or arming attempt adds no request while it is pending |
| Scenarios.StopThenCompletion | MT6701.hpp:187-192 | after Stop, the outstanding transfer's completion, successful or not, leaves the bus idle with no new request |
| Scenarios.FailureHalts | MT6701.hpp:167-173 | after a failed completion, later arming attempts issue no request, and the release is the only select-line write from the failure on |
| Scenarios.CorruptFrameIsDropped | MT6701.hpp:182-185 | after a frame that fails its check, a reader still sees the sample stored before (or nothing) |
| Scenarios.FreshDriverReportsDefaults | MT6701.hpp:53-82 | before any store every getter reports angle 0, nibble 0, strength 0 and no flag |
| Scenarios.ReceivedFrameIsReported | MT6701.hpp:163-193 | a started driver that receives the sensor's frame for a position and nibble reports that position and nibble, and has armed the next transfer |

## Left out

- The floating-point angle (`RAD_PER_LSB`, `ReadAngleRad` returning a
  `float`, MT6701.hpp:88-90, 150): single-precision arithmetic is not
  modelled. The model stores and returns RAW14, and states the scaling
  exactly in units of π.
- The CRC6 algorithm `CRC6::CalculateBits`: its source is not part of this
  model, so it is an arbitrary function parameter with a 6-bit result.
- Atomics and memory orders, and a reader running concurrently with the
  writer: the model is sequential. Each event method runs to completion
  before the next one starts, so torn-read freedom under interleaving is not
  proved.
- LoadCache: its retry branches, an odd counter and a counter that changed
  across the copy, happen only under a concurrent store. They are modelled
  but unreachable sequentially, so the loop always ends after one pass.
- TryStartTransfer: the transport is taken to report completion after
  `ReadAndWrite` returns. A completion delivered from inside `ReadAndWrite`
  (a nested `OnTransferDone`) is not modelled. A successful nested completion
  that re-arms leaves pending set again (MT6701.hpp:187-191, 203), so the
  check "pending false after issuance in interrupt context" (MT6701.hpp:220)
  would stay silent; it would fire when the nested handler leaves pending
  false: through its error path (MT6701.hpp:169), when polling was stopped
  (MT6701.hpp:189), or when its own re-arm is rejected (MT6701.hpp:216).
  In the model, that check fires only for a rejected request.
- `ASSERT` and `ASSERT_FROM_CALLBACK` are counted in `faults`. Their effect
  on the framework (halting the system) is not modelled.
- `ConfigureSPI`, the `ReadAndWrite` buffer wiring and the transmit buffer
  are not modelled. The receive buffer's three bytes at completion are
  parameters of `OnTransferDone`. The select line itself is not modelled:
  `csLevel` holds the level last written to it, and the ghost `csWrites`
  holds the whole sequence of writes.
- The constructor's hardware lookup (`FindOrExit`), callback creation, the
  `ASSERT` on `ConfigureSPI`, and its closing call to `Start`: this is
  framework lifecycle code. `Mt6701`'s constructor sets up the initial field
  values and the released select line, and `Start` is called on it
  separately.
- `OnMonitor` (empty) and the module manifest: no behaviour to model.
