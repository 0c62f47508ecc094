/**
 * The MT6701 driver object: the sample cache written by the completion
 * handler and read by any caller, and the transfer state machine that keeps
 * one SSI transfer on the bus at a time and re-arms it on every completion.
 *
 * The bus transport is not modelled: what the driver learns from it is a
 * parameter of the event methods (did ReadAndWrite accept the request, what
 * status and bytes did the completion deliver). ASSERT_FROM_CALLBACK is
 * modelled by counting the faults it raises in the ghost field `faults`.
 */
module Driver {
  import opened Frame
  import opened Diagnostics

  /** CacheData: the angle (as its 14-bit position RAW14) and the nibble. */
  datatype CacheData = CacheData(raw14: bv32, rawMg: bv8)

  /** The value-initialised CacheData `{}`: angle 0, nibble 0. */
  const EMPTY_DATA := CacheData(0, 0)

  /** The two ErrorCode values LoadCache returns. */
  datatype CacheStatus = Ok | Empty

  /** What `ReadAndWrite` returns when a transfer is requested. */
  datatype RequestStatus = Accepted | Rejected

  /** The ErrorCode the transport passes to the completion handler. */
  datatype TransferStatus = Completed | Failed

  const WORD: nat := 0x1_0000_0000

  /** A uint32 value; arithmetic on it wraps around modulo 2^32. */
  type Uint32 = x: int | 0 <= x < WORD

  /** `fetch_add(1u)` on a uint32 counter. */
  function Increment(x: Uint32): (y: Uint32)
    ensures x < WORD - 1 ==> y == x + 1
    ensures x == WORD - 1 ==> y == 0
  {
    (x + 1) % WORD
  }

  /** The generation counter after n stores: twice n, wrapped around at 2^32. */
  function SeqAfter(n: nat): Uint32
  {
    (2 * n) % WORD
  }

  /** The counter after n stores is even, so `(seq & 1u) != 0` is false for it. */
  lemma SeqAfterIsEven(n: nat)
    ensures SeqAfter(n) % 2 == 0
  {
    var q := (2 * n) / WORD;
    assert 2 * n == q * WORD + SeqAfter(n);
    assert SeqAfter(n) == 2 * (n - q * (WORD / 2));
  }

  /** The two increments of one store take the counter after n stores to the counter after n + 1. */
  lemma StoreStep(n: nat)
    ensures Increment(Increment(SeqAfter(n))) == SeqAfter(n + 1)
  {
    SeqAfterIsEven(n);
    var r := SeqAfter(n);
    assert r + 2 <= WORD;
    var q := (2 * n) / WORD;
    assert 2 * n + 2 == q * WORD + (r + 2);
    if r + 2 == WORD {
      assert 2 * n + 2 == (q + 1) * WORD;
    }
  }

  /** The select-line writes of one request: asserted, and released again if the bus rejects it. */
  function ArmWrites(reply: RequestStatus): (levels: seq<bool>)
    ensures levels != [] && !levels[0]
    ensures levels[|levels| - 1] == (reply == Rejected)
  {
    match reply
    case Accepted => [false]
    case Rejected => [false, true]
  }

  class Mt6701 {
    // cache_seq_, cache_valid_ and cache_data_
    var cacheSeq: Uint32
    var cacheValid: bool
    var cacheData: CacheData
    // running_ and transfer_pending_
    var running: bool
    var transferPending: bool
    /** The level last written to the chip-select line; it is active low, so true means released. */
    var csLevel: bool

    /** Every sample stored so far, oldest first. */
    ghost var history: seq<CacheData>
    /** Calls of ReadAndWrite, and how many of them it rejected. */
    ghost var requests: nat
    ghost var rejections: nat
    /** Calls of the completion handler. */
    ghost var completions: nat
    /** Faults raised through ASSERT_FROM_CALLBACK. */
    ghost var faults: nat
    /** Every level written to the chip-select line, in order. */
    ghost var csWrites: seq<bool>

    /** The sample a reader is owed: the last one stored, or the empty default. */
    ghost function Published(): CacheData
      reads this
    {
      if history == [] then EMPTY_DATA else history[|history| - 1]
    }

    /** The cache holds the last stored sample and an even counter when no store is running. */
    ghost predicate CacheInv()
      reads this
    {
      && cacheSeq == SeqAfter(|history|)
      && (cacheValid <==> history != [])
      && cacheData == Published()
      && cacheData.rawMg <= 0x0F
    }

    /**
     * At most one transfer is outstanding: every accepted request is matched
     * by one completion, except the pending one; and the select line is
     * asserted exactly while a transfer is pending.
     */
    ghost predicate ControlInv()
      reads this
    {
      && requests == rejections + completions + (if transferPending then 1 else 0)
      && csLevel == !transferPending
      && csWrites != [] && csWrites[|csWrites| - 1] == csLevel
    }

    ghost predicate Valid()
      reads this
    {
      CacheInv() && ControlInv()
    }

    twostate predicate CacheUnchanged()
      reads this
    {
      && cacheSeq == old(cacheSeq)
      && cacheValid == old(cacheValid)
      && cacheData == old(cacheData)
      && history == old(history)
    }

    twostate predicate BusUnchanged()
      reads this
    {
      && transferPending == old(transferPending)
      && csLevel == old(csLevel)
      && csWrites == old(csWrites)
      && requests == old(requests)
      && rejections == old(rejections)
      && faults == old(faults)
    }

    /**
     * Exactly one transfer was requested. If the bus accepted it, it is
     * pending with the select line asserted; if the bus rejected it, the
     * line is released, polling is stopped and a fault raised (two faults
     * in interrupt context, where the pending check after issuance fires too).
     */
    twostate predicate IssuedOneRequest(inIsr: bool, reply: RequestStatus)
      reads this
    {
      && requests == old(requests) + 1
      && match reply
         case Accepted =>
           && running && transferPending && !csLevel
           && rejections == old(rejections) && faults == old(faults)
         case Rejected =>
           && !running && !transferPending && csLevel
           && rejections == old(rejections) + 1
           && faults == old(faults) + (if inIsr then 2 else 1)
    }

    /** The state before polling starts: the field initialisers and the released select line. */
    constructor ()
      ensures Valid()
      ensures !running && !transferPending && csLevel
      ensures !cacheValid && cacheData == EMPTY_DATA && history == []
      ensures requests == 0 && rejections == 0 && completions == 0 && faults == 0
      ensures csWrites == [true]
    {
      cacheSeq := 0;
      cacheValid := false;
      cacheData := EMPTY_DATA;
      running := false;
      transferPending := false;
      csLevel := true;
      history := [];
      requests, rejections, completions, faults := 0, 0, 0, 0;
      csWrites := [true];
    }

    /** Start polling; only a call that finds polling stopped tries to arm a transfer. */
    method Start(reply: RequestStatus)
      requires Valid()
      modifies this
      ensures Valid() && CacheUnchanged() && completions == old(completions)
      ensures old(running) ==> running && BusUnchanged()
      ensures !old(running) && old(transferPending) ==> running && BusUnchanged()
      ensures !old(running) && !old(transferPending) ==>
                IssuedOneRequest(false, reply) && csWrites == old(csWrites) + ArmWrites(reply)
    {
      var wasRunning := running;
      running := true;
      if !wasRunning {
        TryStartTransfer(false, reply);
      }
    }

    /** Stop polling; an outstanding transfer is left to complete. */
    method Stop()
      requires Valid()
      modifies this
      ensures Valid() && CacheUnchanged() && BusUnchanged() && completions == old(completions)
      ensures !running
    {
      running := false;
    }

    /** Claim the bus and request one transfer, unless stopped or a transfer is pending. */
    method TryStartTransfer(inIsr: bool, reply: RequestStatus)
      requires Valid()
      modifies this
      ensures Valid() && CacheUnchanged() && completions == old(completions)
      ensures !old(running) || old(transferPending) ==> running == old(running) && BusUnchanged()
      ensures old(running) && !old(transferPending) ==>
                IssuedOneRequest(inIsr, reply) && csWrites == old(csWrites) + ArmWrites(reply)
    {
      if !running {
        return;
      }
      if transferPending {
        return;
      }
      transferPending := true;
      csLevel := false;
      csWrites := csWrites + [false];
      requests := requests + 1;
      if reply == Rejected {
        csLevel := true;
        csWrites := csWrites + [true];
        transferPending := false;
        running := false;
        rejections := rejections + 1;
        faults := faults + 1;
      }
      if inIsr && !transferPending {
        running := false;
        faults := faults + 1;
      }
    }

    /**
     * The completion handler of the pending transfer, given the status and
     * the three bytes the transport delivers; `reply` is what the bus answers
     * if a next transfer is requested.
     */
    method OnTransferDone(inIsr: bool, err: TransferStatus, rx0: bv8, rx1: bv8, rx2: bv8, crc: Crc6, reply: RequestStatus)
      requires Valid() && transferPending
      modifies this
      ensures Valid() && completions == old(completions) + 1
      ensures err == Failed ==>
                && CacheUnchanged()
                && !running && !transferPending && csLevel
                && requests == old(requests) && rejections == old(rejections) && faults == old(faults) + 1
      ensures err == Completed ==>
                var f := Assemble(rx0, rx1, rx2);
                && history == old(history) + (if CheckPasses(f, crc) then [CacheData(Raw14(f), MgRaw(f))] else [])
                && (!CheckPasses(f, crc) ==> CacheUnchanged())
      ensures err == Completed && old(running) ==> IssuedOneRequest(inIsr, reply)
      ensures csWrites == old(csWrites) + [true] + (if err == Completed && old(running) then ArmWrites(reply) else [])
      ensures err == Completed && !old(running) ==>
                && !running && !transferPending && csLevel
                && requests == old(requests) && rejections == old(rejections) && faults == old(faults)
    {
      csLevel := true;
      csWrites := csWrites + [true];
      completions := completions + 1;

      if err == Failed {
        transferPending := false;
        running := false;
        faults := faults + 1;
        return;
      }

      var frame24 := Assemble(rx0, rx1, rx2);
      DecodeAndStore(frame24, crc);

      transferPending := false;
      assert Valid();

      if running {
        TryStartTransfer(inIsr, reply);
      }
    }

    /** The decode-and-store step of the completion handler: a frame that fails its check is dropped. */
    method DecodeAndStore(frame24: bv32, crc: Crc6)
      requires CacheInv()
      modifies this
      ensures CacheInv()
      ensures history == old(history) + (if CheckPasses(frame24, crc) then [CacheData(Raw14(frame24), MgRaw(frame24))] else [])
      ensures !CheckPasses(frame24, crc) ==> CacheUnchanged()
      ensures running == old(running) && BusUnchanged() && completions == old(completions)
    {
      var mgRaw := MgRaw(frame24);
      var decoded := DecodeFrame(frame24, crc);
      if decoded.Some? {
        StoreSample(decoded.value, mgRaw);
      }
    }

    /** Publish a sample: the counter is odd while the fields are written and even again after. */
    method StoreSample(raw14: bv32, rawMg: bv8)
      requires CacheInv()
      modifies this
      ensures CacheInv()
      ensures cacheSeq == (old(cacheSeq) + 2) % WORD
      ensures cacheValid
      ensures history == old(history) + [CacheData(raw14, rawMg & 0x0F)]
      ensures running == old(running) && BusUnchanged() && completions == old(completions)
    {
      ghost var stored := |history|;
      StoreStep(stored);
      cacheSeq := Increment(cacheSeq);
      cacheData := cacheData.(raw14 := raw14);
      cacheData := cacheData.(rawMg := rawMg & 0x0F);
      cacheSeq := Increment(cacheSeq);
      cacheValid := true;
      history := history + [cacheData];
      assert |history| == stored + 1;
    }

    /**
     * Copy the cache into `cache` with the sequence-lock read: retry while
     * the counter is odd or changes across the copy. On EMPTY, `cache` is
     * left as the caller passed it.
     */
    method LoadCache(cache: CacheData) returns (status: CacheStatus, loaded: CacheData)
      requires CacheInv()
      ensures status == Empty <==> history == []
      ensures status == Empty ==> loaded == cache
      ensures status == Ok ==> loaded == history[|history| - 1]
    {
      loaded := cache;
      if !cacheValid {
        return Empty, loaded;
      }
      SeqAfterIsEven(|history|);
      var done := false;
      while !done
        invariant done ==> loaded == cacheData
        decreases !done
      {
        var seqBegin := cacheSeq;
        if seqBegin % 2 != 0 {
          continue;
        }
        loaded := cacheData;
        var seqEnd := cacheSeq;
        if seqBegin == seqEnd {
          done := true;
        }
      }
      return Ok, loaded;
    }

    /** The nibble of the last sample, or 0 when there is none. */
    method ReadRawMg() returns (mg: bv8)
      requires CacheInv()
      ensures history == [] ==> mg == 0
      ensures history != [] ==> mg == history[|history| - 1].rawMg
      ensures mg <= 0x0F
    {
      var status, cache := LoadCache(EMPTY_DATA);
      if status != Ok {
        return 0;
      }
      return cache.rawMg;
    }

    /** ReadAngleRad, as the position RAW14 of the last sample, or 0 when there is none. */
    method ReadAngleRaw14() returns (raw14: bv32)
      requires CacheInv()
      ensures history == [] ==> raw14 == 0
      ensures history != [] ==> raw14 == history[|history| - 1].raw14
    {
      var status, cache := LoadCache(EMPTY_DATA);
      if status != Ok {
        return 0;
      }
      return cache.raw14;
    }

    method IsOverspeed() returns (r: bool)
      requires CacheInv()
      ensures r == (history != [] && Overspeed(history[|history| - 1].rawMg))
    {
      var mg := ReadRawMg();
      r := Overspeed(mg);
    }

    method IsPushDetected() returns (r: bool)
      requires CacheInv()
      ensures r == (history != [] && PushDetected(history[|history| - 1].rawMg))
    {
      var mg := ReadRawMg();
      r := PushDetected(mg);
    }

    method IsFieldTooStrong() returns (r: bool)
      requires CacheInv()
      ensures r == (history != [] && FieldTooStrong(history[|history| - 1].rawMg))
    {
      var mg := ReadRawMg();
      r := FieldTooStrong(mg);
    }

    method IsFieldTooWeak() returns (r: bool)
      requires CacheInv()
      ensures r == (history != [] && FieldTooWeak(history[|history| - 1].rawMg))
    {
      var mg := ReadRawMg();
      r := FieldTooWeak(mg);
    }

    method GetMagnetStrength() returns (code: bv8)
      requires CacheInv()
      ensures code <= 3
      ensures code == (if history == [] then 0 else MagnetStrength(history[|history| - 1].rawMg))
    {
      var mg := ReadRawMg();
      code := MagnetStrength(mg);
    }

    method GetRawMg() returns (mg: bv8)
      requires CacheInv()
      ensures mg <= 0x0F
      ensures mg == (if history == [] then 0 else history[|history| - 1].rawMg)
    {
      mg := ReadRawMg();
    }
  }
}
