/**
 * Runs of the driver through several events, each stating one behaviour
 * of the polling loop as a whole.
 */
module Scenarios {
  import opened Frame
  import opened Diagnostics
  import opened Driver

  /** Starting an idle driver arms exactly one transfer; starting again or re-trying arms no second one. */
  method StartArmsOneTransfer(d: Mt6701, inIsr: bool, reply: RequestStatus)
    requires d.Valid() && !d.running && !d.transferPending
    modifies d
    ensures d.Valid() && d.running && d.transferPending && !d.csLevel
    ensures d.requests == old(d.requests) + 1
  {
    d.Start(Accepted);
    d.Start(reply);
    d.TryStartTransfer(inIsr, reply);
  }

  /** After Stop, the completion of the outstanding transfer releases the bus and arms nothing. */
  method StopThenCompletion(d: Mt6701, inIsr: bool, err: TransferStatus, rx0: bv8, rx1: bv8, rx2: bv8, crc: Crc6, reply: RequestStatus)
    requires d.Valid() && d.transferPending
    modifies d
    ensures d.Valid() && !d.running && !d.transferPending && d.csLevel
    ensures d.requests == old(d.requests)
  {
    d.Stop();
    d.OnTransferDone(inIsr, err, rx0, rx1, rx2, crc, reply);
  }

  /** A bus failure halts the pipeline: no later arming attempt issues a request
   * or writes the select line again after its release. */
  method FailureHalts(d: Mt6701, inIsr: bool, rx0: bv8, rx1: bv8, rx2: bv8, crc: Crc6, reply: RequestStatus)
    requires d.Valid() && d.transferPending
    modifies d
    ensures d.Valid() && !d.running && !d.transferPending && d.csLevel
    ensures d.requests == old(d.requests) && d.faults == old(d.faults) + 1
    ensures d.csWrites == old(d.csWrites) + [true]
  {
    d.OnTransferDone(inIsr, Failed, rx0, rx1, rx2, crc, reply);
    d.TryStartTransfer(inIsr, reply);
    d.TryStartTransfer(!inIsr, reply);
  }

  /** A frame that fails its check leaves readers seeing the sample they saw before. */
  method CorruptFrameIsDropped(d: Mt6701, inIsr: bool, rx0: bv8, rx1: bv8, rx2: bv8, crc: Crc6, reply: RequestStatus)
      returns (status: CacheStatus, data: CacheData)
    requires d.Valid() && d.transferPending
    requires !CheckPasses(Assemble(rx0, rx1, rx2), crc)
    modifies d
    ensures (status == Empty) == (old(d.history) == [])
    ensures status == Ok ==> data == old(d.Published())
  {
    d.OnTransferDone(inIsr, Completed, rx0, rx1, rx2, crc, reply);
    status, data := d.LoadCache(EMPTY_DATA);
  }

  /** A new driver reports no sample: angle 0, nibble 0 and no flag. */
  method FreshDriverReportsDefaults()
      returns (raw14: bv32, mg: bv8, overspeed: bool, push: bool, strong: bool, weak: bool, strength: bv8)
    ensures raw14 == 0 && mg == 0 && strength == 0
    ensures !overspeed && !push && !strong && !weak
  {
    var d := new Mt6701();
    raw14 := d.ReadAngleRaw14();
    mg := d.GetRawMg();
    overspeed := d.IsOverspeed();
    push := d.IsPushDetected();
    strong := d.IsFieldTooStrong();
    weak := d.IsFieldTooWeak();
    strength := d.GetMagnetStrength();
  }

  /**
   * End to end: a started driver that receives the frame the sensor sends
   * for a position and nibble reports that position and nibble, and has
   * already armed the next transfer.
   */
  method ReceivedFrameIsReported(raw14: bv32, mg: bv8, crc: Crc6)
      returns (angle: bv32, nibble: bv8, rearmed: bool)
    requires raw14 <= RAW14_MASK && mg <= 0x0F
    ensures angle == raw14 && nibble == mg
    ensures rearmed
  {
    var d := new Mt6701();
    d.Start(Accepted);
    var f := EncodeFrame(raw14, mg, crc);
    DecodeEncode(raw14, mg, crc);
    AssembleOfBytes(f);
    d.OnTransferDone(true, Completed, ((f >> 16) & 0xFF) as bv8, ((f >> 8) & 0xFF) as bv8, (f & 0xFF) as bv8, crc, Accepted);
    angle := d.ReadAngleRaw14();
    nibble := d.GetRawMg();
    rearmed := d.transferPending;
  }
}
