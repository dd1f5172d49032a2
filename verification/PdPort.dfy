/** The FUSB302B port: CC-line detection, attach and detach, and the retry machine, as one
    step per `loop()` pass, message, or call. Time is real time; the firmware sees it
    through the 32-bit `millis()`. */
module PdPort {
  import opened Words
  import opened PdMessage
  import opened PdSink

  const CC_SETTLE_MS := 5
  const CC_RETRY_INTERVAL_MS := 500
  const STARTUP_MS := 2000
  const SRC_CAP_WAIT_MS := 5000

  const MEASURE_CC1: bv8 := 0x07 // PDWN_1 | PDWN_2 | MEAS_CC1
  const MEASURE_CC2: bv8 := 0x0B // PDWN_1 | PDWN_2 | MEAS_CC2
  const SPEC_REV_BITS: bv8 := 0x20
  const TXCC1: bv8 := 0x01
  const TXCC2: bv8 := 0x02
  const AUTO_CRC: bv8 := 0x04

  datatype HwState = Unattached | Attached | Failed
  datatype CcPhase = CcIdle | SettleCc1 | SettleCc2
  datatype Cc = Cc(phase: CcPhase, start: nat, retryAfter: nat, level1: Level)

  datatype Port = Port(pd: Sink, hw: HwState, cc: Cc, startup: nat, vbusLost: bool, switches0: bv8, switches1: bv8)

  /** The BC_LVL field: STATUS0 masked to its two low bits. */
  type Level = n: nat | n < 4

  /** Six consecutive reads of that field. */
  type Samples = s: seq<Level> | |s| == 6 witness [0, 0, 0, 0, 0, 0]

  /** Outcomes of one pass: each lock attempt, the CC samples, the task creation. */
  datatype PollOutcome = PollOutcome(
    lock: bool, samples: Samples, spawned: bool, crcLock: bool, resetLock: bool, lossLock: bool)

  datatype Event =
    | Poll(o: PollOutcome)
    | Message(m: Incoming)
    | AskVoltage(volts: int)
    | VbusDropped
    | ReaderStarted(crcLock: bool, resetLock: bool)

  // ---------------------------------------------------------------- CC lines

  predicate Stable(s: Samples) {
    forall i :: 0 <= i < |s| ==> s[i] == s[0]
  }

  function FusbReset(s: Sink, locked: bool): Sink {
    if locked then s.(lastId := NO_MESSAGE_ID, msgCounter := 0) else s
  }

  function EnableAutoCrc(p: Port, locked: bool): Port {
    if locked then p.(switches1 := p.switches1 | AUTO_CRC) else p
  }

  function MeasurementFailed(p: Port, level1: Level, now: nat): Port {
    p.(cc := Cc(CcIdle, p.cc.start, now, level1))
  }

  function StartCc1(p: Port, now: nat): Port {
    p.(switches0 := MEASURE_CC1, switches1 := SPEC_REV_BITS, cc := p.cc.(phase := SettleCc1, start := now))
  }

  function FinishCc1(p: Port, o: PollOutcome, now: nat): Port {
    var level := o.samples[0];
    if Stable(o.samples) then p.(switches0 := MEASURE_CC2, cc := Cc(SettleCc2, now, p.cc.retryAfter, level))
    else MeasurementFailed(p, level, now)
  }

  function SelectLine(p: Port, first: bool): Port {
    p.(switches0 := if first then MEASURE_CC1 else MEASURE_CC2,
       switches1 := SPEC_REV_BITS | (if first then TXCC1 else TXCC2), cc := p.cc.(phase := CcIdle))
  }

  function FinishCc2(p: Port, o: PollOutcome, now: nat): Port {
    var level2 := o.samples[0];
    if Stable(o.samples) && p.cc.level1 > 0 && level2 == 0 then Attach(SelectLine(p, true), o, now)
    else if Stable(o.samples) && p.cc.level1 == 0 && level2 > 0 then Attach(SelectLine(p, false), o, now)
    else MeasurementFailed(p, p.cc.level1, now)
  }

  function Attach(p: Port, o: PollOutcome, now: nat): Port {
    if p.startup != 0 then
      if o.spawned then EnterAttached(p, p.pd, now) else p.(startup := 0, hw := Failed, pd := SetState(p.pd, PdError))
    else EnterAttached(EnableAutoCrc(p, o.crcLock), FusbReset(p.pd, o.resetLock), now)
  }

  function EnterAttached(p: Port, s: Sink, now: nat): Port {
    p.(startup := 0, hw := Attached, pd := SetState(s.(retry := Retry(true, false, 0, now)), DefaultContract))
  }

  function CheckUnattached(p: Port, o: PollOutcome, now: nat): Port {
    if p.startup != 0 && Elapsed(now, p.startup) < STARTUP_MS then p
    else if p.cc.retryAfter != 0 && Elapsed(now, p.cc.retryAfter) < CC_RETRY_INTERVAL_MS then p
    else if p.cc.phase != CcIdle && Elapsed(now, p.cc.start) < CC_SETTLE_MS then p
    else if !o.lock then p
    else
      match p.cc.phase
      case CcIdle => StartCc1(p, now)
      case SettleCc1 => FinishCc1(p, o, now)
      case SettleCc2 => FinishCc2(p, o, now)
  }

  // ---------------------------------------------------------------- the retry machine

  /** The pass acts on the retry machine instead of waiting. */
  predicate Due(r: Retry, now: nat) {
    r.waiting && (r.count == 0 || Elapsed(now, r.stamp) >= SRC_CAP_WAIT_MS)
  }

  function RetryStep(s: Sink, o: PollOutcome, now: nat): Sink {
    if !Due(s.retry, now) then s
    else if s.retry.count == 0 then s.(retry := s.retry.(count := 1, stamp := now))
    else
      var count := s.retry.count + 1;
      if count < 2 then Send(s.(retry := s.retry.(count := count, stamp := now)), GET_SOURCE_CAP, NextId(s), [])
      else if !s.retry.tried then
        var t := FusbReset(s.(retry := Retry(true, true, 2, now)), o.resetLock);
        Send(t, SOFT_RESET, NextId(t), [])
      else
        SetState(s.(retry := Retry(false, true, count, now), activeAms := false), PdTimeout)
  }

  function CheckAttached(s: Sink, o: PollOutcome, now: nat): Sink {
    var t := CheckAms(s, now);
    if t.activeAms then t else RetryStep(t, o, now)
  }

  // ---------------------------------------------------------------- loop()

  function HandleLoss(p: Port, o: PollOutcome, now: nat): Port {
    if p.vbusLost && p.hw == Attached then
      var s := FusbReset(p.pd.(retry := p.pd.retry.(waiting := false), activeAms := false), o.lossLock);
      p.(vbusLost := false, hw := Unattached, cc := p.cc.(phase := CcIdle, retryAfter := now),
         pd := SetState(s, Disconnected))
    else p.(vbusLost := false)
  }

  function CheckStatus(p: Port, o: PollOutcome, now: nat): Port {
    match p.hw
    case Unattached => CheckUnattached(p, o, now)
    case Attached => p.(pd := CheckAttached(p.pd, o, now))
    case Failed => p
  }

  function PublishContract(s: Sink, now: nat): Sink {
    if s.contractTimer != 0 && Elapsed(now, s.contractTimer) > 1000 then s.(contractTimer := 0) else s
  }

  function Loop(p: Port, o: PollOutcome, now: nat): Port {
    var q := CheckStatus(HandleLoss(p, o, now), o, now);
    q.(pd := PublishContract(q.pd, now))
  }

  function Step(p: Port, e: Event, now: nat): Port {
    match e
    case Poll(o) => Loop(p, o, now)
    case Message(m) => p.(pd := HandleMessage(p.pd, m, now))
    case AskVoltage(volts) => p.(pd := RequestVoltage(p.pd, volts))
    case VbusDropped => p.(vbusLost := true)
    case ReaderStarted(crcLock, resetLock) => EnableAutoCrc(p, crcLock).(pd := FusbReset(p.pd, resetLock))
  }
}
