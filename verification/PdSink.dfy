/** The sink side of USB Power Delivery: reading source capabilities, choosing a power data
    object, building the request, and the message handlers of `PowerDelivery`. */
module PdSink {
  import opened Words
  import opened PdMessage

  // ---------------------------------------------------------------- power data objects

  datatype PdoType = FixedSupply | Battery | VariableSupply | AugmentedPdo

  /** Voltages in 50 mV, current in 10 mA, power in 250 mW units. */
  datatype PdContract = PdContract(kind: PdoType, minV: bv16, maxV: bv16, maxI: bv16, maxP: bv16)

  const NO_CONTRACT := PdContract(FixedSupply, 0, 0, 0, 0)
  const FALLBACK_CONTRACT := PdContract(FixedSupply, 0, 100, 30, 0)

  function ParsePowerInfo(pdo: bv32): PdContract {
    match PdoKind(pdo)
    case FixedSupply => PdContract(FixedSupply, 0, Ten(pdo >> 10), Ten(pdo), 0)
    case Battery => PdContract(Battery, Ten(pdo >> 10), Ten(pdo >> 20), 0, Ten(pdo))
    case VariableSupply => PdContract(VariableSupply, Ten(pdo >> 10), Ten(pdo >> 20), Ten(pdo), 0)
    case AugmentedPdo =>
      PdContract(AugmentedPdo, (((pdo >> 8) & 0xFF) as bv16) * 2, (((pdo >> 17) & 0xFF) as bv16) * 2,
                 ((pdo & 0x7F) as bv16) * 5, 0)
  }

  function PdoKind(pdo: bv32): PdoType {
    var t := pdo >> 30;
    if t == 0 then FixedSupply else if t == 1 then Battery else if t == 2 then VariableSupply else AugmentedPdo
  }

  /** The low ten bits. */
  function Ten(x: bv32): bv16 {
    (x & 0x3FF) as bv16
  }

  /** Whole volts, rounded down: the selection loop's `max_v * 50 / 1000`. */
  function Volts(c: PdContract): int {
    c.maxV as int * 50 / 1000
  }

  // What the specification says of the bits themselves.

  /** Any kind but the augmented one, which has both top bits set. */
  predicate Usable(pdo: bv32) {
    pdo >> 30 != 3
  }

  /** The highest voltage a usable object offers, in 50 mV units: bits 10 to 19 of a fixed
      supply (section 6.4.1.2.3 of the USB Power Delivery Specification), bits 20 to 29 of a
      variable or battery supply (sections 6.4.1.2.4 and 6.4.1.2.5). */
  function VoltageBits(pdo: bv32): bv16 {
    if pdo >> 30 == 0 then ((pdo >> 10) & 0x3FF) as bv16 else ((pdo >> 20) & 0x3FF) as bv16
  }

  function OfferedVolts(pdo: bv32): int {
    VoltageBits(pdo) as int * 50 / 1000
  }

  predicate Fits(pdo: bv32, volts: int) {
    Usable(pdo) && OfferedVolts(pdo) <= volts
  }

  /** The contract read from an object has each field from its own bits. */
  predicate Reads(c: PdContract, pdo: bv32) {
    match pdo >> 30
    case 0 => c == PdContract(FixedSupply, 0, ((pdo >> 10) & 0x3FF) as bv16, (pdo & 0x3FF) as bv16, 0)
    case 1 => c == PdContract(Battery, ((pdo >> 10) & 0x3FF) as bv16, ((pdo >> 20) & 0x3FF) as bv16, 0, (pdo & 0x3FF) as bv16)
    case 2 => c == PdContract(VariableSupply, ((pdo >> 10) & 0x3FF) as bv16, ((pdo >> 20) & 0x3FF) as bv16, (pdo & 0x3FF) as bv16, 0)
    case _ => c.kind == AugmentedPdo && c.maxV == (((pdo >> 17) & 0xFF) as bv16) * 2 && c.maxP == 0
              && c.minV == (((pdo >> 8) & 0xFF) as bv16) * 2 && c.maxI == ((pdo & 0x7F) as bv16) * 5
  }

  lemma ParseReads(pdo: bv32)
    ensures Reads(ParsePowerInfo(pdo), pdo)
  {
  }

  lemma ReadsVolts(c: PdContract, pdo: bv32)
    requires Reads(c, pdo)
    ensures c.kind != AugmentedPdo <==> Usable(pdo)
    ensures Usable(pdo) ==> c.maxV == VoltageBits(pdo) && Volts(c) == OfferedVolts(pdo)
  {
  }

  // ---------------------------------------------------------------- selection

  lemma ParsedVolts(pdo: bv32)
    ensures var c := ParsePowerInfo(pdo);
            && (c.kind != AugmentedPdo <==> Usable(pdo))
            && (Usable(pdo) ==> c.maxV == VoltageBits(pdo) && Volts(c) == OfferedVolts(pdo))
  {
    ParseReads(pdo);
    ReadsVolts(ParsePowerInfo(pdo), pdo);
  }

  /** The selection loop after the objects of `objects`. */
  function Selected(objects: seq<bv32>, volts: int): (r: Option<nat>)
    ensures r.Some? ==> r.value < |objects| && Usable(objects[r.value])
  {
    if objects == [] then None
    else
      var n := |objects| - 1;
      var before := Selected(objects[..n], volts);
      var info := ParsePowerInfo(objects[n]);
      ParsedVolts(objects[n]);
      if info.kind != AugmentedPdo && (Volts(info) <= volts || before.None?) then Some(n) else before
  }

  lemma SelectedSnoc(init: seq<bv32>, last: bv32, volts: int)
    ensures Selected(init + [last], volts) ==
              if Fits(last, volts) || (Usable(last) && Selected(init, volts).None?) then Some(|init|)
              else Selected(init, volts)
  {
    var objects := init + [last];
    assert objects[..|init|] == init && objects[|init|] == last;
    ParsedVolts(last);
  }

  predicate AnyUsable(objects: seq<bv32>) {
    exists k :: 0 <= k < |objects| && Usable(objects[k])
  }

  predicate AnyFits(objects: seq<bv32>, volts: int) {
    exists k :: 0 <= k < |objects| && Fits(objects[k], volts)
  }

  lemma OneMore(init: seq<bv32>, pdo: bv32, volts: int)
    ensures AnyUsable(init + [pdo]) <==> AnyUsable(init) || Usable(pdo)
    ensures AnyFits(init + [pdo], volts) <==> AnyFits(init, volts) || Fits(pdo, volts)
  {
    var objects := init + [pdo];
    assert objects[|init|] == pdo && forall k :: 0 <= k < |init| ==> objects[k] == init[k];
  }

  lemma {:induction false} SelectsUsable(objects: seq<bv32>, volts: int)
    ensures Selected(objects, volts).None? <==> !AnyUsable(objects)
  {
    if objects == [] {
    } else {
      var init, last := objects[..|objects| - 1], objects[|objects| - 1];
      SelectsUsable(init, volts);
      OneMore(init, last, volts);
      SelectedSnoc(init, last, volts);
      assert init + [last] == objects;
    }
  }

  predicate LastFit(objects: seq<bv32>, volts: int, i: nat) {
    && i < |objects| && Fits(objects[i], volts)
    && forall k :: i < k < |objects| ==> !Fits(objects[k], volts)
  }

  lemma LastFitSnoc(init: seq<bv32>, last: bv32, volts: int, i: nat)
    ensures Fits(last, volts) ==> LastFit(init + [last], volts, |init|)
    ensures !Fits(last, volts) && LastFit(init, volts, i) ==> LastFit(init + [last], volts, i)
  {
  }

  lemma {:induction false} SelectsLastFit(objects: seq<bv32>, volts: int)
    requires AnyFits(objects, volts)
    ensures Selected(objects, volts).Some? && LastFit(objects, volts, Selected(objects, volts).value)
  {
    var init, last := objects[..|objects| - 1], objects[|objects| - 1];
    assert objects == init + [last];
    OneMore(init, last, volts);
    SelectedSnoc(init, last, volts);
    if Fits(last, volts) {
      LastFitSnoc(init, last, volts, 0);
    } else {
      SelectsLastFit(init, volts);
      LastFitSnoc(init, last, volts, Selected(init, volts).value);
    }
  }

  predicate FirstUsable(objects: seq<bv32>, i: nat) {
    && i < |objects| && Usable(objects[i])
    && forall k :: 0 <= k < i ==> !Usable(objects[k])
  }

  lemma FirstUsableSnoc(init: seq<bv32>, last: bv32, i: nat)
    ensures FirstUsable(init, i) ==> FirstUsable(init + [last], i)
    ensures !AnyUsable(init) && Usable(last) ==> FirstUsable(init + [last], |init|)
  {
  }

  lemma {:induction false} SelectsFirstUsable(objects: seq<bv32>, volts: int)
    requires AnyUsable(objects) && !AnyFits(objects, volts)
    ensures Selected(objects, volts).Some? && FirstUsable(objects, Selected(objects, volts).value)
  {
    var init, last := objects[..|objects| - 1], objects[|objects| - 1];
    assert objects == init + [last];
    OneMore(init, last, volts);
    SelectedSnoc(init, last, volts);
    SelectsUsable(init, volts);
    if AnyUsable(init) {
      SelectsFirstUsable(init, volts);
      FirstUsableSnoc(init, last, Selected(init, volts).value);
    } else {
      FirstUsableSnoc(init, last, 0);
    }
  }

  /** The last object that fits, else the first usable one, else nothing. */
  lemma SelectionRule(objects: seq<bv32>, volts: int)
    ensures Selected(objects, volts).None? <==> !AnyUsable(objects)
    ensures AnyFits(objects, volts) ==> LastFit(objects, volts, Selected(objects, volts).value)
    ensures AnyUsable(objects) && !AnyFits(objects, volts) ==> FirstUsable(objects, Selected(objects, volts).value)
  {
    SelectsUsable(objects, volts);
    if AnyFits(objects, volts) {
      SelectsLastFit(objects, volts);
    } else if AnyUsable(objects) {
      SelectsFirstUsable(objects, volts);
    }
  }

  /** The loop of `respond_to_src_cap_msg_`; 255 means nothing was selected. */
  method SelectPdo(objects: seq<bv32>, volts: int) returns (info: PdContract, selected: nat)
    requires |objects| <= MAX_OBJECTS
    ensures match Selected(objects, volts)
            case None => selected == 255
            case Some(i) => selected == i && info == ParsePowerInfo(objects[i])
    ensures selected == 255 <==> !AnyUsable(objects)
    ensures AnyUsable(objects) ==> Chosen(objects, volts, selected) && Reads(info, objects[selected])
  {
    info, selected := NO_CONTRACT, 255;
    for idx := 0 to |objects|
      invariant match Selected(objects[..idx], volts)
                case None => selected == 255
                case Some(i) => selected == i && info == ParsePowerInfo(objects[i])
    {
      assert objects[..idx + 1][..idx] == objects[..idx];
      var pwr := ParsePowerInfo(objects[idx]);
      if pwr.kind == AugmentedPdo {
        continue;
      }
      if pwr.maxV as int * 50 / 1000 <= volts || selected == 255 {
        info, selected := pwr, idx;
      }
    }
    assert objects[..|objects|] == objects;
    SelectionRule(objects, volts);
    if selected != 255 {
      ParseReads(objects[selected]);
    }
  }

  // ---------------------------------------------------------------- request data objects

  function PositionBits(pos: nat): bv32
    requires pos <= MAX_OBJECTS
  {
    Count(pos) as bv32
  }

  const NO_SUSPEND_USB_CAPABLE: bv32 := 0x0300_0000
  const FALLBACK_REQUEST: bv32 := 30 | (10 << 10) | 0x0300_0000 | (1 << 28)

  function PackRequest(req: bv32, pos: bv32): bv32 {
    NO_SUSPEND_USB_CAPABLE | req | (req << 10) | (pos << 28)
  }

  lemma PackedFields(req: bv32, pos: bv32)
    requires req < 1024 && pos < 8
    ensures var r := PackRequest(req, pos);
            && (r >> 28) & 0x7 == pos && r >> 31 == 0 && r & 0x3FF == req && (r >> 10) & 0x3FF == req
            && r & 0x0FF0_0000 == NO_SUSPEND_USB_CAPABLE
  {
  }

  /** Whichever of current and power an object states, it is in its low ten bits. */
  lemma RequestedAmount(pdo: bv32)
    requires Usable(pdo)
    ensures var info := ParsePowerInfo(pdo);
            (if info.maxI != 0 then info.maxI else info.maxP) == Ten(pdo)
  {
  }

  function RequestData(info: PdContract, pos: nat): bv32
    requires pos <= MAX_OBJECTS
  {
    if info.kind != AugmentedPdo then
      PackRequest((if info.maxI != 0 then info.maxI else info.maxP) as bv32, PositionBits(pos))
    else NO_SUSPEND_USB_CAPABLE
  }

  lemma RequestPacks(pdo: bv32, pos: nat)
    requires Usable(pdo) && 1 <= pos <= MAX_OBJECTS
    ensures RequestData(ParsePowerInfo(pdo), pos) == PackRequest(pdo & 0x3FF, PositionBits(pos))
  {
    RequestedAmount(pdo);
  }

  /** What a source reads from a request, per section 6.4.2 of the USB Power Delivery
      Specification: object position, operating amount, maximum amount, flags. */
  predicate Asks(r: bv32, pos: nat, operating: bv32, limit: bv32)
    requires pos <= MAX_OBJECTS
  {
    && (r >> 28) & 0x7 == PositionBits(pos) && r >> 31 == 0
    && (r >> 10) & 0x3FF == operating && r & 0x3FF == limit
    && r & 0x0FF0_0000 == NO_SUSPEND_USB_CAPABLE
  }

  /** A request built for an object decodes to that object's position and to its own current
      or power in both fields; the fields do not run into each other or into the flag bits. */
  lemma RequestDecodes(pdo: bv32, pos: nat)
    requires Usable(pdo) && 1 <= pos <= MAX_OBJECTS
    ensures Asks(RequestData(ParsePowerInfo(pdo), pos), pos, pdo & 0x3FF, pdo & 0x3FF)
  {
    RequestPacks(pdo, pos);
    PackedFields(pdo & 0x3FF, PositionBits(pos));
  }

  lemma FallbackDecodes()
    ensures Asks(FALLBACK_REQUEST, 1, 10, 30) && Volts(FALLBACK_CONTRACT) == 5
  {
  }

  /** The contract asked for and the request sent, for a list of capabilities. */
  function Answer(objects: seq<bv32>, volts: int): (PdContract, bv32)
    requires |objects| <= MAX_OBJECTS
  {
    match Selected(objects, volts)
    case None => (FALLBACK_CONTRACT, FALLBACK_REQUEST)
    case Some(i) => (ParsePowerInfo(objects[i]), RequestData(ParsePowerInfo(objects[i]), i + 1))
  }

  /** The object the rule singles out: the last that fits, or the first usable if none does. */
  predicate Chosen(objects: seq<bv32>, volts: int, i: nat) {
    if AnyFits(objects, volts) then LastFit(objects, volts, i) else FirstUsable(objects, i)
  }

  lemma SelectedIsChosen(objects: seq<bv32>, volts: int)
    requires AnyUsable(objects)
    ensures Selected(objects, volts).Some? && Chosen(objects, volts, Selected(objects, volts).value)
  {
    SelectionRule(objects, volts);
  }

  lemma AnswerIs(objects: seq<bv32>, volts: int, i: nat)
    requires |objects| <= MAX_OBJECTS && Selected(objects, volts) == Some(i)
    ensures i < |objects| && Usable(objects[i])
    ensures Answer(objects, volts) == (ParsePowerInfo(objects[i]), RequestData(ParsePowerInfo(objects[i]), i + 1))
  {
  }

  lemma PdoAnswer(pdo: bv32, pos: nat, answer: (PdContract, bv32))
    requires Usable(pdo) && 1 <= pos <= MAX_OBJECTS
    requires answer == (ParsePowerInfo(pdo), RequestData(ParsePowerInfo(pdo), pos))
    ensures Reads(answer.0, pdo) && Asks(answer.1, pos, pdo & 0x3FF, pdo & 0x3FF)
  {
    ParseReads(pdo);
    RequestDecodes(pdo, pos);
  }

  /** For every list of capabilities: the request sent names the chosen object by its
      position, asks for that object's own amount, and the contract remembered is that
      object's; without a usable object it is the fallback. */
  lemma AnswerDecodes(objects: seq<bv32>, volts: int) returns (i: nat)
    requires |objects| <= MAX_OBJECTS
    ensures AnyUsable(objects) ==>
              && Chosen(objects, volts, i) && Reads(Answer(objects, volts).0, objects[i])
              && Asks(Answer(objects, volts).1, i + 1, objects[i] & 0x3FF, objects[i] & 0x3FF)
    ensures !AnyUsable(objects) ==>
              Answer(objects, volts).0 == FALLBACK_CONTRACT && Asks(Answer(objects, volts).1, 1, 10, 30)
  {
    if AnyUsable(objects) {
      SelectedIsChosen(objects, volts);
      i := Selected(objects, volts).value;
      AnswerIs(objects, volts, i);
      PdoAnswer(objects[i], i + 1, Answer(objects, volts));
    } else {
      i := 0;
      SelectsUsable(objects, volts);
      FallbackDecodes();
    }
  }

  /** Capabilities from which the requested voltage can be respected. */
  predicate Respectable(objects: seq<bv32>, volts: int) {
    if AnyUsable(objects) then AnyFits(objects, volts) else 5 <= volts
  }

  /** The contract asked for stays within the requested voltage exactly when the source
      offers something that does. */
  lemma AnswerRespectsVoltage(objects: seq<bv32>, volts: int)
    requires |objects| <= MAX_OBJECTS
    ensures Volts(Answer(objects, volts).0) <= volts <==> Respectable(objects, volts)
  {
    SelectionRule(objects, volts);
    FallbackDecodes();
  }

  /** Its voltage is the one the chosen object's bits offer, or the 5 V of the fallback. */
  lemma AnswerVolts(objects: seq<bv32>, volts: int)
    requires |objects| <= MAX_OBJECTS
    ensures AnyUsable(objects) ==>
              exists i: nat :: Chosen(objects, volts, i) && Volts(Answer(objects, volts).0) == OfferedVolts(objects[i])
    ensures !AnyUsable(objects) ==> Volts(Answer(objects, volts).0) == 5
  {
    if AnyUsable(objects) {
      SelectedIsChosen(objects, volts);
      var i := Selected(objects, volts).value;
      ParsedVolts(objects[i]);
      assert Chosen(objects, volts, i);
    } else {
      SelectsUsable(objects, volts);
      FallbackDecodes();
    }
  }

  // ---------------------------------------------------------------- PowerDelivery

  datatype PdState =
    | Disconnected | PdTimeout | DefaultContract | Transition | ExplicitSprContract | PdError

  const SPEC_REV_2: bv8 := 1
  const NO_MESSAGE_ID: bv8 := 255
  const SINK_CAPABILITY: bv32 := 500 | (100 << 10) | (1 << 26)

  /** The retry machine for source capabilities. */
  datatype Retry = Retry(waiting: bool, tried: bool, count: nat, stamp: nat)

  /** The fields of `PowerDelivery`; `sent` is every message handed to `send_message`. */
  datatype Sink = Sink(
    activeAms: bool, amsTimer: nat, lastId: bv8, msgCounter: bv8,
    requested: PdContract, accepted: PdContract,
    state: PdState, prevState: PdState, retry: Retry,
    requestVoltage: int, contractVoltage: int, contractTimer: nat, sent: seq<PdMsg>)

  /** A message that `read_message` can have produced. */
  type Incoming = m: PdMsg | |m.objects| <= MAX_OBJECTS witness PdMsg(0, 0, 0, false, [])

  const INITIAL := Sink(false, 0, NO_MESSAGE_ID, 0, NO_CONTRACT, NO_CONTRACT, Disconnected, Disconnected,
                        Retry(true, false, 0, 0), 5, 5, 0, [])

  function SetState(s: Sink, state: PdState): Sink {
    s.(prevState := s.state, state := state)
  }

  function Send(s: Sink, kind: bv8, id: bv8, objects: seq<bv32>): Sink {
    s.(sent := s.sent + [PdMsg(kind, SPEC_REV_2, id, false, objects)])
  }

  function NextId(s: Sink): bv8 {
    s.msgCounter % 8
  }

  /** `PdContract::operator==`: limits below the maximum are not compared. */
  predicate SameContract(a: PdContract, b: PdContract) {
    a.maxV == b.maxV && a.maxI == b.maxI && a.kind == b.kind
  }

  function SetContract(s: Sink, c: PdContract, now: nat): Sink {
    s.(accepted := c, contractVoltage := c.maxV as int * 5 / 100, contractTimer := now)
  }

  predicate IsGoodCrc(m: PdMsg) {
    m.objects == [] && m.kind == GOODCRC
  }

  predicate IsSourceCap(m: PdMsg) {
    m.objects != [] && m.kind == SOURCE_CAP
  }

  function HandleControl(s: Sink, m: Incoming, now: nat): Sink {
    if m.kind == GOODCRC then s
    else if m.kind == ACCEPT then
      if s.activeAms then
        var t := if SameContract(s.requested, s.accepted) then s else SetState(s, Transition);
        SetContract(t, s.requested, now)
      else s
    else if m.kind == PS_RDY then SetState(s.(activeAms := false), ExplicitSprContract)
    else if m.kind == SOFT_RESET then SetState(Send(s, ACCEPT, 0, []), DefaultContract).(msgCounter := 0)
    else if m.kind == GET_SINK_CAP then Send(s, SINK_CAP, NextId(s), [SINK_CAPABILITY])
    else Send(s, NOT_SUPPORTED, NextId(s), [])
  }

  function HandleData(s: Sink, m: Incoming, now: nat): Sink {
    if m.kind == SOURCE_CAP then
      var (contract, request) := Answer(m.objects, s.requestVoltage);
      Send(s.(activeAms := true, amsTimer := now, retry := s.retry.(waiting := false), requested := contract),
           REQUEST, NextId(s), [request])
    else s
  }

  function HandleMessage(s: Sink, m: Incoming, now: nat): Sink {
    if IsGoodCrc(m) then s.(msgCounter := s.msgCounter + 1)
    else if m.id == s.lastId then s
    else
      var t := s.(lastId := m.id);
      if m.objects == [] then HandleControl(t, m, now) else HandleData(t, m, now)
  }

  function RequestVoltage(s: Sink, volts: int): Sink {
    if s.activeAms then s
    else s.(requestVoltage := volts, retry := s.retry.(waiting := true, count := 0))
  }

  /** `check_ams`, with the timeout of two seconds. */
  function CheckAms(s: Sink, now: nat): Sink {
    if s.activeAms && Elapsed(now, s.amsTimer) > 2000 then s.(activeAms := false) else s
  }

  // ---------------------------------------------------------------- replies

  /** What one acknowledged control message that is not a duplicate does, in the codes of
      section 6.3 of the USB Power Delivery Specification: Soft_Reset is accepted under id 0,
      Get_Sink_Cap answered with 5 V and 5 A, PS_RDY closes the negotiation, and anything
      unknown is refused; replies carry revision 2 and the counter modulo 8. */
  lemma ControlReplies(s: Sink, m: Incoming, now: nat)
    requires m.objects == [] && m.id != s.lastId && m.kind != 1
    ensures var r := HandleMessage(s, m, now);
            && r.lastId == m.id && r.requested == s.requested && r.requestVoltage == s.requestVoltage && r.retry == s.retry
            && (m.kind == 3 || m.kind == 6 ==> r.sent == s.sent)
            && (m.kind == 6 ==> !r.activeAms && r.state == ExplicitSprContract && r.prevState == s.state)
            && (m.kind != 6 ==> r.activeAms == s.activeAms)
            && (m.kind == 0x0D ==>
                  r.sent == s.sent + [PdMsg(3, 1, 0, false, [])] && r.msgCounter == 0 && r.state == DefaultContract)
            && (m.kind == 8 ==> r.sent == s.sent + [PdMsg(4, 1, s.msgCounter % 8, false, [0x0401_91F4])])
            && (m.kind != 3 && m.kind != 6 && m.kind != 8 && m.kind != 0x0D ==>
                  r.sent == s.sent + [PdMsg(0x10, 1, s.msgCounter % 8, false, [])])
            && (m.kind != 0x0D ==> r.msgCounter == s.msgCounter)
            && (m.kind == 8 || m.kind >= 0x0E ==> r.state == s.state && r.accepted == s.accepted)
  {
    if m.kind == 3 {
      if s.activeAms && !SameContract(s.requested, s.accepted) {
      }
    } else if m.kind == 6 {
    } else if m.kind == 0x0D {
    } else if m.kind == 8 {
      assert SINK_CAPABILITY == 0x0401_91F4;
    }
  }

  /** Accept adopts the contract asked for exactly while a negotiation is open, and announces
      a transition exactly when kind, voltage or current changes. */
  lemma AcceptAdopts(s: Sink, m: Incoming, now: nat)
    requires m.objects == [] && m.id != s.lastId && m.kind == 3
    ensures var r := HandleMessage(s, m, now);
            && r.accepted == (if s.activeAms then s.requested else s.accepted)
            && (s.activeAms ==> r.contractTimer == now && r.contractVoltage == Volts(s.requested))
            && (!s.activeAms ==> r == s.(lastId := m.id))
            && (r.state != s.state ==> r.state == Transition)
            && (s.activeAms && s.state != Transition ==>
                  (r.state == Transition <==> s.requested.maxV != s.accepted.maxV || s.requested.maxI != s.accepted.maxI
                                              || s.requested.kind != s.accepted.kind))
  {
    if s.activeAms && !SameContract(s.requested, s.accepted) {
    }
  }

  /** An acknowledgement advances the message counter and does nothing else. */
  lemma AcknowledgementCounts(s: Sink, m: Incoming, now: nat)
    requires m.objects == [] && m.kind == 1
    ensures HandleMessage(s, m, now) == s.(msgCounter := s.msgCounter + 1)
  {
  }

  /** Capabilities open a negotiation, stop the waiting for them, and are answered by one
      request under the current counter. */
  lemma CapabilitiesAreAnswered(s: Sink, m: Incoming, now: nat)
    requires m.objects != [] && m.id != s.lastId
    ensures var r := HandleMessage(s, m, now);
            if m.kind == 1 then
              && r.activeAms && r.amsTimer == now && !r.retry.waiting && r.requested == Answer(m.objects, s.requestVoltage).0
              && r.sent == s.sent + [PdMsg(2, 1, s.msgCounter % 8, false, [Answer(m.objects, s.requestVoltage).1])]
              && r.requestVoltage == s.requestVoltage && r.accepted == s.accepted && r.state == s.state
            else r == s.(lastId := m.id)
  {
  }

  // ---------------------------------------------------------------- retransmissions

  datatype Arrival = Arrival(msg: Incoming, now: nat)

  function HandleAll(s: Sink, ms: seq<Arrival>): Sink
    decreases |ms|
  {
    if ms == [] then s else HandleAll(HandleMessage(s, ms[0].msg, ms[0].now), ms[1..])
  }

  lemma {:induction false} HandleConcat(s: Sink, a: seq<Arrival>, b: seq<Arrival>)
    ensures HandleAll(s, a + b) == HandleAll(HandleAll(s, a), b)
    decreases |a|
  {
    if a == [] {
      assert a + b == b;
    } else {
      assert (a + b)[1..] == a[1..] + b;
      HandleConcat(HandleMessage(s, a[0].msg, a[0].now), a[1..], b);
    }
  }

  /** Acknowledgements do not touch the memory of the last message. */
  lemma {:induction false} AcksKeepLastId(s: Sink, acks: seq<Arrival>)
    requires forall i :: 0 <= i < |acks| ==> IsGoodCrc(acks[i].msg)
    ensures HandleAll(s, acks).lastId == s.lastId
    decreases |acks|
  {
    if acks == [] {
    } else {
      AcksKeepLastId(HandleMessage(s, acks[0].msg, acks[0].now), acks[1..]);
    }
  }

  lemma HandledIsRemembered(s: Sink, m: Incoming, now: nat)
    requires !IsGoodCrc(m)
    ensures HandleMessage(s, m, now).lastId == m.id
  {
  }

  /** A retransmission of the last message, after any number of acknowledgements and at any
      later time, changes neither the state nor what is sent, whatever follows. */
  lemma RetransmissionIsIgnored(s: Sink, before: seq<Arrival>, m: Arrival, acks: seq<Arrival>, again: nat,
                                after: seq<Arrival>)
    requires !IsGoodCrc(m.msg) && forall i :: 0 <= i < |acks| ==> IsGoodCrc(acks[i].msg)
    ensures HandleAll(s, before + [m] + acks + [Arrival(m.msg, again)] + after)
            == HandleAll(s, before + [m] + acks + after)
  {
    var head := before + [m] + acks;
    var copy := [Arrival(m.msg, again)];
    HandleConcat(s, head + copy, after);
    HandleConcat(s, head, copy);
    HandleConcat(s, head, after);
    HandleConcat(s, before + [m], acks);
    HandleConcat(s, before, [m]);
    var t := HandleAll(s, before);
    assert HandleAll(t, [m]) == HandleMessage(t, m.msg, m.now);
    HandledIsRemembered(t, m.msg, m.now);
    AcksKeepLastId(HandleAll(t, [m]), acks);
    var u := HandleAll(s, head);
    assert u.lastId == m.msg.id;
    assert HandleAll(u, copy) == HandleMessage(u, m.msg, again) == u;
  }
}
