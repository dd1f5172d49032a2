/** `PowerDelivery` and `FUSB302B` as objects: each method is proved to do what the step
    functions of `PdSink` and `PdPort` say. */
module PdObjects {
  import opened Words
  import opened PdMessage
  import opened PdSink
  import opened PdPort
  import PdRuns

  class PowerDelivery {
    var activeAms: bool
    var amsTimer: nat
    var lastId: bv8
    var msgCounter: bv8
    var requested: PdContract
    var accepted: PdContract
    var state: PdState
    var prevState: PdState
    var waitSrcCap: bool
    var triedSoftReset: bool
    var srcCapRetries: nat
    var srcCapStamp: nat
    var requestVoltage: int
    var contractVoltage: int
    var contractTimer: nat
    var sent: seq<PdMsg>

    ghost function View(): Sink
      reads this
    {
      Sink(activeAms, amsTimer, lastId, msgCounter, requested, accepted, state, prevState,
           Retry(waitSrcCap, triedSoftReset, srcCapRetries, srcCapStamp),
           requestVoltage, contractVoltage, contractTimer, sent)
    }

    constructor ()
      ensures View() == INITIAL
    {
      activeAms, amsTimer, lastId, msgCounter := false, 0, NO_MESSAGE_ID, 0;
      requested, accepted := NO_CONTRACT, NO_CONTRACT;
      state, prevState := Disconnected, Disconnected;
      waitSrcCap, triedSoftReset, srcCapRetries, srcCapStamp := true, false, 0, 0;
      requestVoltage, contractVoltage, contractTimer, sent := 5, 5, 0, [];
    }

    method SetStateTo(newState: PdState)
      modifies this`state, this`prevState
      ensures View() == SetState(old(View()), newState)
    {
      prevState := state;
      state := newState;
    }

    method SendMessage(kind: bv8, id: bv8, objects: seq<bv32>)
      modifies this`sent
      ensures View() == Send(old(View()), kind, id, objects)
    {
      sent := sent + [PdMsg(kind, SPEC_REV_2, id, false, objects)];
    }

    method SetContractTo(contract: PdContract, now: nat)
      modifies this`accepted, this`contractVoltage, this`contractTimer
      ensures View() == SetContract(old(View()), contract, now)
    {
      accepted := contract;
      contractVoltage := contract.maxV as int * 5 / 100;
      contractTimer := now;
    }

    method HandleControlMessage(m: Incoming, now: nat)
      modifies this
      ensures View() == HandleControl(old(View()), m, now)
    {
      if m.kind == GOODCRC {
      } else if m.kind == ACCEPT {
        if activeAms {
          if !SameContract(requested, accepted) {
            SetStateTo(Transition);
          }
          SetContractTo(requested, now);
        }
      } else if m.kind == PS_RDY {
        activeAms := false;
        SetStateTo(ExplicitSprContract);
      } else if m.kind == SOFT_RESET {
        SendMessage(ACCEPT, 0, []);
        SetStateTo(DefaultContract);
        msgCounter := 0;
      } else if m.kind == GET_SINK_CAP {
        SendMessage(SINK_CAP, msgCounter % 8, [SINK_CAPABILITY]);
      } else {
        SendMessage(NOT_SUPPORTED, msgCounter % 8, []);
      }
    }

    /** Chooses an object, remembers the contract asked for and sends the request. */
    method RespondToSourceCap(m: Incoming)
      modifies this`requested, this`sent
      ensures var (contract, request) := Answer(m.objects, old(requestVoltage));
              View() == Send(old(View()).(requested := contract), REQUEST, NextId(old(View())), [request])
    {
      var info, request := ChooseRequest(m.objects);
      requested := info;
      SendMessage(REQUEST, msgCounter % 8, [request]);
    }

    method ChooseRequest(objects: seq<bv32>) returns (info: PdContract, request: bv32)
      requires |objects| <= MAX_OBJECTS
      ensures (info, request) == Answer(objects, requestVoltage)
    {
      var selected;
      info, selected := SelectPdo(objects, requestVoltage);
      if selected == 255 {
        return FALLBACK_CONTRACT, FALLBACK_REQUEST;
      }
      request := RequestData(info, selected + 1);
    }

    method HandleDataMessage(m: Incoming, now: nat)
      modifies this
      ensures View() == HandleData(old(View()), m, now)
    {
      if m.kind == SOURCE_CAP {
        activeAms := true;
        amsTimer := now;
        waitSrcCap := false;
        RespondToSourceCap(m);
      }
    }

    method Handle(m: Incoming, now: nat) returns (handled: bool)
      modifies this
      ensures View() == HandleMessage(old(View()), m, now)
      ensures handled <==> IsGoodCrc(m) || m.id != old(lastId)
    {
      if |m.objects| == 0 && m.kind == GOODCRC {
        msgCounter := msgCounter + 1;
        return true;
      }
      if m.id == lastId {
        return false;
      }
      lastId := m.id;
      if |m.objects| == 0 {
        HandleControlMessage(m, now);
      } else {
        HandleDataMessage(m, now);
      }
      handled := true;
    }

    method Request(volts: int) returns (taken: bool)
      modifies this
      ensures View() == RequestVoltage(old(View()), volts) && taken == !old(activeAms)
    {
      if activeAms {
        return false;
      }
      requestVoltage := volts;
      waitSrcCap := true;
      srcCapRetries := 0;
      taken := true;
    }

    method CheckAmsNow(now: nat) returns (active: bool)
      modifies this`activeAms
      ensures View() == CheckAms(old(View()), now) && active == activeAms
    {
      if activeAms && Elapsed(now, amsTimer) > 2000 {
        activeAms := false;
      }
      active := activeAms;
    }

    method ResetIds(locked: bool)
      modifies this`lastId, this`msgCounter
      ensures View() == FusbReset(old(View()), locked)
    {
      if locked {
        lastId := NO_MESSAGE_ID;
        msgCounter := 0;
      }
    }

    /** The attached branch of `check_status_`. */
    method CheckAttachedNow(o: PollOutcome, now: nat)
      modifies this
      ensures View() == CheckAttached(old(View()), o, now)
    {
      var active := CheckAmsNow(now);
      if active {
        return;
      }
      RetryNow(o, now);
    }

    method RetryNow(o: PollOutcome, now: nat)
      modifies this
      ensures View() == RetryStep(old(View()), o, now)
    {
      if !waitSrcCap || (srcCapRetries != 0 && Elapsed(now, srcCapStamp) < SRC_CAP_WAIT_MS) {
        return;
      }
      if srcCapRetries == 0 {
        srcCapRetries := 1;
        srcCapStamp := now;
        return;
      }
      srcCapRetries := srcCapRetries + 1;
      srcCapStamp := now;
      if srcCapRetries < 2 {
        assert false; // the branch that would send Get_Source_Cap cannot be reached
      } else if !triedSoftReset {
        srcCapRetries := 2;
        triedSoftReset := true;
        SendSoftReset(o.resetLock);
      } else {
        GiveUp();
      }
    }

    method GiveUp()
      modifies this`waitSrcCap, this`activeAms, this`state, this`prevState
      ensures var s := old(View());
              View() == SetState(s.(retry := s.retry.(waiting := false), activeAms := false), PdTimeout)
    {
      waitSrcCap := false;
      activeAms := false;
      SetStateTo(PdTimeout);
    }

    method SendSoftReset(locked: bool)
      modifies this`lastId, this`msgCounter, this`sent
      ensures var t := FusbReset(old(View()), locked); View() == Send(t, SOFT_RESET, NextId(t), [])
    {
      ResetIds(locked);
      SendMessage(SOFT_RESET, msgCounter % 8, []);
    }

    /** The protocol side of an attach. */
    method Attached(now: nat)
      modifies this
      ensures View() == SetState(old(View()).(retry := Retry(true, false, 0, now)), DefaultContract)
    {
      srcCapStamp := now;
      srcCapRetries := 0;
      waitSrcCap := true;
      triedSoftReset := false;
      SetStateTo(DefaultContract);
    }

    /** The protocol side of a detach. */
    method Detached(locked: bool)
      modifies this
      ensures var s := old(View());
              View() == SetState(FusbReset(s.(retry := s.retry.(waiting := false), activeAms := false), locked), Disconnected)
    {
      waitSrcCap := false;
      activeAms := false;
      ResetIds(locked);
      SetStateTo(Disconnected);
    }
  }

  /** `cc_read_bc_lvl_`: the first sample, and whether five more agree with it. */
  method ReadBcLevel(samples: Samples) returns (level: Level, stable: bool)
    ensures level == samples[0] && stable == Stable(samples)
  {
    level := samples[0];
    for i := 1 to 6
      invariant forall k :: 0 <= k < i ==> samples[k] == level
    {
      if samples[i] != level {
        return level, false;
      }
    }
    stable := true;
  }

  class Fusb302b {
    const pd: PowerDelivery
    var hw: HwState
    var ccPhase: CcPhase
    var ccStart: nat
    var ccRetryAfter: nat
    var cc1Level: Level
    var startup: nat
    var vbusLost: bool
    var switches0: bv8
    var switches1: bv8

    ghost function View(): Port
      reads this, pd
    {
      Port(pd.View(), hw, Cc(ccPhase, ccStart, ccRetryAfter, cc1Level), startup, vbusLost, switches0, switches1)
    }

    constructor (pd: PowerDelivery, startedAt: nat)
      ensures this.pd == pd && View() == Port(pd.View(), Unattached, Cc(CcIdle, 0, 0, 0), startedAt, false, 0x03, 0x20)
    {
      this.pd := pd;
      hw, ccPhase, ccStart, ccRetryAfter, cc1Level := Unattached, CcIdle, 0, 0, 0;
      startup, vbusLost, switches0, switches1 := startedAt, false, 0x03, 0x20;
    }

    method EnableAutoCrcNow(locked: bool)
      modifies this`switches1
      ensures View() == EnableAutoCrc(old(View()), locked)
    {
      if locked {
        switches1 := switches1 | AUTO_CRC;
      }
    }

    method AttachNow(o: PollOutcome, now: nat)
      modifies this, pd
      ensures View() == Attach(old(View()), o, now)
    {
      if startup != 0 {
        startup := 0;
        if !o.spawned {
          hw := Failed;
          pd.SetStateTo(PdError);
          return;
        }
      } else {
        EnableAutoCrcNow(o.crcLock);
        pd.ResetIds(o.resetLock);
      }
      pd.Attached(now);
      hw := Attached;
    }

    method FinishFirstLine(o: PollOutcome, now: nat)
      modifies this
      ensures View() == FinishCc1(old(View()), o, now)
    {
      var stable;
      cc1Level, stable := ReadBcLevel(o.samples);
      if stable {
        switches0 := MEASURE_CC2;
        ccPhase := SettleCc2;
        ccStart := now;
      } else {
        ccPhase := CcIdle;
        ccRetryAfter := now;
      }
    }

    method FinishSecondLine(o: PollOutcome, now: nat)
      modifies this, pd
      ensures View() == FinishCc2(old(View()), o, now)
    {
      var cc2, connected := ReadBcLevel(o.samples);
      if connected && cc1Level > 0 && cc2 == 0 {
        switches0 := MEASURE_CC1;
        switches1 := SPEC_REV_BITS | TXCC1;
      } else if connected && cc1Level == 0 && cc2 > 0 {
        switches0 := MEASURE_CC2;
        switches1 := SPEC_REV_BITS | TXCC2;
      } else {
        ccPhase := CcIdle;
        ccRetryAfter := now;
        return;
      }
      ccPhase := CcIdle;
      AttachNow(o, now);
    }

    method CheckUnattachedNow(o: PollOutcome, now: nat)
      modifies this, pd
      ensures View() == CheckUnattached(old(View()), o, now)
    {
      if startup != 0 && Elapsed(now, startup) < STARTUP_MS {
        return;
      }
      if ccRetryAfter != 0 && Elapsed(now, ccRetryAfter) < CC_RETRY_INTERVAL_MS {
        return;
      }
      if ccPhase != CcIdle && Elapsed(now, ccStart) < CC_SETTLE_MS {
        return;
      }
      if !o.lock {
        return;
      }
      match ccPhase
      case CcIdle =>
        switches0 := MEASURE_CC1;
        switches1 := SPEC_REV_BITS;
        ccPhase := SettleCc1;
        ccStart := now;
      case SettleCc1 => FinishFirstLine(o, now);
      case SettleCc2 => FinishSecondLine(o, now);
    }

    method HandleLossNow(o: PollOutcome, now: nat)
      modifies this, pd
      ensures View() == HandleLoss(old(View()), o, now)
    {
      var lost := vbusLost;
      vbusLost := false;
      if lost && hw == Attached {
        hw := Unattached;
        ccPhase := CcIdle;
        ccRetryAfter := now;
        pd.Detached(o.lossLock);
      }
    }

    method LoopNow(o: PollOutcome, now: nat)
      modifies this, pd
      ensures View() == Loop(old(View()), o, now)
    {
      HandleLossNow(o, now);
      match hw {
        case Unattached => CheckUnattachedNow(o, now);
        case Attached => pd.CheckAttachedNow(o, now);
        case Failed =>
      }
      if pd.contractTimer != 0 && Elapsed(now, pd.contractTimer) > 1000 {
        pd.contractTimer := 0;
      }
    }

    /** One event: a pass, a message for the protocol layer, a voltage request, VBUS
        dropping, or the first steps of the reader task. */
    method Take(e: Event, now: nat)
      modifies this, pd
      ensures View() == Step(old(View()), e, now)
    {
      match e
      case Poll(o) => LoopNow(o, now);
      case Message(m) =>
        var _ := pd.Handle(m, now);
      case AskVoltage(volts) =>
        var _ := pd.Request(volts);
      case VbusDropped => vbusLost := true;
      case ReaderStarted(crcLock, resetLock) =>
        EnableAutoCrcNow(crcLock);
        pd.ResetIds(resetLock);
    }
  }

  /** The port after setup, with whatever an observer's stopwatch shows. */
  ghost function SetUp(startedAt: nat, m: PdRuns.Measurement): PdRuns.World {
    PdRuns.World(Port(INITIAL, Unattached, Cc(CcIdle, 0, 0, 0), startedAt, false, 0x03, 0x20), 0,
                 PdRuns.History([], 5, 0, 0, 0, 0, 0, 0, 0, 0, m))
  }

  /** A new port under any events in real time: it never sends Get_Source_Cap, at most one
      Soft_Reset follows an attach, and attached means the measured line is in use. */
  method Schedule(startedAt: nat, xs: seq<PdRuns.Timed>, ghost m: PdRuns.Measurement)
    returns (port: Fusb302b, ghost w: PdRuns.World)
    requires PdRuns.Ordered(0, xs)
    ensures fresh(port) && fresh(port.pd) && port.View() == w.p && w == PdRuns.Run(SetUp(startedAt, m), xs)
    ensures forall i :: 0 <= i < |port.pd.sent| ==>
              port.pd.sent[i].kind != GET_SOURCE_CAP || port.pd.sent[i].objects != []
    ensures port.hw == Attached ==> PdRuns.AttachEvidence(port.View(), w.h.m)
    ensures w.h.softResets <= 1
  {
    var pd := new PowerDelivery();
    port := new Fusb302b(pd, startedAt);
    ghost var w0 := SetUp(startedAt, m);
    for i := 0 to |xs|
      invariant fresh(port) && fresh(port.pd) && port.View() == PdRuns.Run(w0, xs[..i]).p
    {
      PdRuns.RunSnoc(w0, xs[..i], xs[i]);
      assert xs[..i + 1] == xs[..i] + [xs[i]];
      port.Take(xs[i].e, Millis(xs[i].at));
    }
    assert xs[..|xs|] == xs;
    w := PdRuns.Run(w0, xs);
    PdRuns.SoftResetAtMostOnce(w0, xs);
    PdRuns.AttachedOnEvidence(w0, xs);
  }
}
