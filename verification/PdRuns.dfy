/** What every run of the PD port keeps: contract voltage, soft resets, timing of the retry
    machine, and the evidence behind an attach. */
module PdRuns {
  import opened Words
  import opened PdMessage
  import opened PdSink
  import opened PdPort

  /** How the CC lines were measured, in real time. */
  datatype Measurement = Measurement(
    selected1: nat, read1: nat, samples1: Samples, selected2: nat, read2: nat, samples2: Samples)

  /** caps:       objects of the last Source_Capabilities that was answered
      wanted:     the voltage asked for last while no negotiation was open
      openedAt:   when the last negotiation was opened
      softResets: Soft_Reset messages sent since the last attach
      duePolls:   passes since the last attach in which the retry machine acted
      gaveUps:    how many of these gave up
      polledAt, actedAt: when it first and last acted
      resetAt, gaveUpAt: when it sent Soft_Reset, and last gave up */
  datatype History = History(
    caps: seq<bv32>, wanted: int, openedAt: nat, softResets: nat, duePolls: nat, gaveUps: nat,
    polledAt: nat, actedAt: nat, resetAt: nat, gaveUpAt: nat, m: Measurement)

  datatype World = World(p: Port, clock: nat, h: History)

  /** An event and the real time at which it happens. */
  datatype Timed = Timed(at: nat, e: Event)

  predicate Sent(before: Sink, after: Sink, kind: bv8) {
    |before.sent| < |after.sent| && var m := after.sent[|after.sent| - 1]; m.kind == kind && m.objects == []
  }

  function ObserveCc(m: Measurement, q: Port, r: Port, o: PollOutcome, t: nat): Measurement {
    if q.hw != Unattached then m
    else if q.cc.phase == CcIdle && r.cc.phase == SettleCc1 then m.(selected1 := t)
    else if q.cc.phase == SettleCc1 && r.cc.phase == SettleCc2 then m.(read1 := t, samples1 := o.samples, selected2 := t)
    else if r.hw == Attached then m.(read2 := t, samples2 := o.samples)
    else m
  }

  /** `q` is the port after VBUS loss was handled, `r` after the status check. */
  function ObservePoll(h: History, q: Port, r: Port, o: PollOutcome, t: nat): History {
    var m := ObserveCc(h.m, q, r, o, t);
    if q.hw == Unattached then
      if r.hw == Attached then h.(softResets := 0, duePolls := 0, gaveUps := 0, m := m) else h.(m := m)
    else if q.hw == Attached then
      var acted := !CheckAms(q.pd, Millis(t)).activeAms && Due(q.pd.retry, Millis(t));
      h.(softResets := if Sent(q.pd, r.pd, SOFT_RESET) then h.softResets + 1 else h.softResets,
         duePolls := if acted then h.duePolls + 1 else h.duePolls,
         gaveUps := if acted && !r.pd.retry.waiting then h.gaveUps + 1 else h.gaveUps,
         polledAt := if acted && h.duePolls == 0 then t else h.polledAt,
         actedAt := if acted then t else h.actedAt,
         resetAt := if Sent(q.pd, r.pd, SOFT_RESET) then t else h.resetAt,
         gaveUpAt := if acted && !r.pd.retry.waiting then t else h.gaveUpAt)
    else h
  }

  function Observe(w: World, e: Event, t: nat): History {
    match e
    case Poll(o) =>
      var q := HandleLoss(w.p, o, Millis(t));
      ObservePoll(w.h, q, CheckStatus(q, o, Millis(t)), o, t)
    case Message(m) =>
      var h := if IsSourceCap(m) && m.id != w.p.pd.lastId then w.h.(caps := m.objects, openedAt := t) else w.h;
      h.(softResets := if Sent(w.p.pd, HandleMessage(w.p.pd, m, Millis(t)), SOFT_RESET) then h.softResets + 1 else h.softResets)
    case AskVoltage(volts) => if w.p.pd.activeAms then w.h else w.h.(wanted := volts)
    case _ => w.h
  }

  function NextAt(w: World, e: Event, t: nat): World {
    World(Step(w.p, e, Millis(t)), t, Observe(w, e, t))
  }

  /** Real time never runs backwards. */
  predicate Ordered(clock: nat, xs: seq<Timed>)
    decreases |xs|
  {
    xs != [] ==> clock <= xs[0].at && Ordered(xs[0].at, xs[1..])
  }

  function Run(w: World, xs: seq<Timed>): World
    decreases |xs|
  {
    if xs == [] then w else Run(NextAt(w, xs[0].e, xs[0].at), xs[1..])
  }

  /** After setup: nothing attached, startup delay running, registers at their reset value. */
  predicate Boot(w: World) {
    && w.p.pd == INITIAL.(requestVoltage := w.p.pd.requestVoltage)
    && w.p.hw == Unattached && w.p.cc == Cc(CcIdle, 0, 0, 0) && !w.p.vbusLost
    && w.h.caps == [] && w.h.softResets == 0 && w.h.wanted == w.p.pd.requestVoltage && w.h.openedAt <= w.clock
  }

  // ---------------------------------------------------------------- invariants

  /** While a negotiation is open, what was requested is the answer to the last capabilities
      at the voltage still in force. */
  predicate NegotiationInv(s: Sink, h: History) {
    && |h.caps| <= MAX_OBJECTS && s.requestVoltage == h.wanted
    && (s.activeAms ==> s.requested == Answer(h.caps, s.requestVoltage).0 && s.amsTimer == Millis(h.openedAt))
  }

  predicate ResetInv(s: Sink, h: History) {
    && h.softResets == (if s.retry.tried then 1 else 0)
    && (forall i :: 0 <= i < |s.sent| ==> !(s.sent[i].kind == GET_SOURCE_CAP && s.sent[i].objects == []))
  }

  /** CC1 was read stably at least 5 ms after it was selected. */
  predicate Cc1Measured(m: Measurement, level1: Level) {
    && m.selected1 + CC_SETTLE_MS <= m.read1 <= m.selected2
    && Stable(m.samples1) && level1 == m.samples1[0]
  }

  predicate CcInv(p: Port, clock: nat, m: Measurement) {
    && (p.hw == Attached ==> p.cc.phase == CcIdle)
    && (p.hw == Unattached && p.cc.phase == SettleCc1 ==>
          p.cc.start == Millis(m.selected1) && m.selected1 <= clock && p.switches0 == MEASURE_CC1)
    && (p.hw == Unattached && p.cc.phase == SettleCc2 ==>
          && p.cc.start == Millis(m.selected2) && m.selected2 <= clock && p.switches0 == MEASURE_CC2
          && Cc1Measured(m, p.cc.level1))
  }

  /** Everything the attach decision rests on, and the line it switched to. */
  predicate AttachEvidence(p: Port, m: Measurement) {
    var level1, level2 := m.samples1[0], m.samples2[0];
    && Cc1Measured(m, level1)
    && m.selected2 + CC_SETTLE_MS <= m.read2 && Stable(m.samples2)
    && (level1 != 0 <==> level2 == 0)
    && p.switches0 == (if level1 != 0 then MEASURE_CC1 else MEASURE_CC2)
    && p.switches1 & (TXCC1 | TXCC2) == (if level1 != 0 then TXCC1 else TXCC2)
  }

  /** The measuring side: CC phases, registers, clocks. */
  predicate LineInv(p: Port, clock: nat, m: Measurement) {
    CcInv(p, clock, m) && (p.hw == Attached ==> AttachEvidence(p, m))
  }

  predicate Inv(w: World) {
    && NegotiationInv(w.p.pd, w.h) && ResetInv(w.p.pd, w.h) && LineInv(w.p, w.clock, w.h.m)
    && w.h.openedAt <= w.clock
  }

  // ---------------------------------------------------------------- preservation: the lines

  /** A settle time that has elapsed on the wrapped clock has elapsed in real time. */
  lemma Settled(p: Port, selected: nat, t: nat)
    requires p.cc.start == Millis(selected) && selected <= t
    ensures Elapsed(Millis(t), p.cc.start) >= CC_SETTLE_MS ==> selected + CC_SETTLE_MS <= t
  {
    ElapsedIsSafe(selected, t);
  }

  lemma StartKeeps(q: Port, m: Measurement, o: PollOutcome, t: nat)
    requires q.hw == Unattached && q.cc.phase == CcIdle
    ensures var r := StartCc1(q, Millis(t)); LineInv(r, t, ObserveCc(m, q, r, o, t))
  {
  }

  lemma Cc1Keeps(q: Port, m: Measurement, o: PollOutcome, t: nat)
    requires q.hw == Unattached && q.cc.phase == SettleCc1 && m.selected1 + CC_SETTLE_MS <= t
    ensures var r := FinishCc1(q, o, Millis(t)); LineInv(r, t, ObserveCc(m, q, r, o, t))
  {
  }

  lemma SelectedLine(q: Port, m: Measurement, o: PollOutcome, first: bool, now: nat)
    requires q.hw == Unattached && Cc1Measured(m, m.samples1[0])
    requires m.selected2 + CC_SETTLE_MS <= m.read2 && Stable(m.samples2)
    requires (m.samples1[0] != 0 <==> m.samples2[0] == 0) && first == (m.samples1[0] != 0)
    ensures var r := Attach(SelectLine(q, first), o, now);
            r.hw != Unattached && r.cc.phase == CcIdle && (r.hw == Attached ==> AttachEvidence(r, m))
  {
  }

  lemma Cc2Keeps(q: Port, m: Measurement, o: PollOutcome, t: nat)
    requires q.hw == Unattached && q.cc.phase == SettleCc2 && m.selected2 + CC_SETTLE_MS <= t
    requires Cc1Measured(m, q.cc.level1)
    ensures var r := FinishCc2(q, o, Millis(t)); LineInv(r, t, ObserveCc(m, q, r, o, t))
  {
    var m' := m.(read2 := t, samples2 := o.samples);
    if Stable(o.samples) {
      if q.cc.level1 > 0 && o.samples[0] == 0 {
        SelectedLine(q, m', o, true, Millis(t));
      } else if q.cc.level1 == 0 && o.samples[0] > 0 {
        SelectedLine(q, m', o, false, Millis(t));
      }
    }
  }

  lemma UnattachedKeepsLine(q: Port, m: Measurement, o: PollOutcome, clock: nat, t: nat)
    requires LineInv(q, clock, m) && clock <= t && q.hw == Unattached
    ensures var r := CheckUnattached(q, o, Millis(t)); LineInv(r, t, ObserveCc(m, q, r, o, t))
  {
    match q.cc.phase
    case CcIdle => StartKeeps(q, m, o, t);
    case SettleCc1 =>
      Settled(q, m.selected1, t);
      if m.selected1 + CC_SETTLE_MS <= t {
        Cc1Keeps(q, m, o, t);
      }
    case SettleCc2 =>
      Settled(q, m.selected2, t);
      if m.selected2 + CC_SETTLE_MS <= t {
        Cc2Keeps(q, m, o, t);
      }
  }

  // ---------------------------------------------------------------- preservation: the protocol

  predicate SinkInv(s: Sink, h: History) {
    NegotiationInv(s, h) && ResetInv(s, h)
  }

  /** Steps that neither open a negotiation, nor touch what it rests on, nor send. */
  predicate Untouched(s: Sink, t: Sink) {
    && (t.activeAms ==> s.activeAms) && t.requested == s.requested && t.requestVoltage == s.requestVoltage
    && t.retry.tried == s.retry.tried && t.sent == s.sent && t.amsTimer == s.amsTimer
  }

  lemma UntouchedKeeps(s: Sink, t: Sink, h: History)
    requires SinkInv(s, h) && Untouched(s, t)
    ensures SinkInv(t, h)
  {
  }

  /** What a status check of an unattached port may do to the protocol state. */
  predicate MaybeAttached(q: Port, r: Port) {
    && (r.hw != Unattached ==> r.cc.phase == CcIdle)
    && (r.hw == Unattached ==> r.pd == q.pd)
    && Untouched(q.pd, r.pd.(retry := q.pd.retry))
    && (if r.hw == Attached then !r.pd.retry.tried else r.pd.retry == q.pd.retry)
  }

  lemma AttachShape(q: Port, o: PollOutcome, now: nat)
    requires q.hw == Unattached && q.cc.phase == CcIdle
    ensures MaybeAttached(q, Attach(q, o, now))
  {
    if q.startup == 0 {
    } else if o.spawned {
    }
  }

  lemma UnattachedShape(q: Port, o: PollOutcome, now: nat)
    requires q.hw == Unattached
    ensures MaybeAttached(q, CheckUnattached(q, o, now))
  {
    AttachShape(SelectLine(q, true), o, now);
    AttachShape(SelectLine(q, false), o, now);
    match q.cc.phase
    case CcIdle =>
    case SettleCc1 =>
    case SettleCc2 =>
      if Stable(o.samples) {
        if q.cc.level1 > 0 && o.samples[0] == 0 {
        } else if q.cc.level1 == 0 && o.samples[0] > 0 {
        }
      }
  }

  lemma UnattachedKeepsSink(q: Port, r: Port, h: History, o: PollOutcome, t: nat)
    requires SinkInv(q.pd, h) && q.hw == Unattached && MaybeAttached(q, r)
    ensures SinkInv(r.pd, ObservePoll(h, q, r, o, t))
  {
    UntouchedKeeps(q.pd, r.pd.(retry := q.pd.retry), h);
  }

  lemma RetryKeeps(s: Sink, h: History, o: PollOutcome, now: nat)
    requires SinkInv(s, h) && !s.activeAms
    ensures var r := RetryStep(s, o, now);
            SinkInv(r, h.(softResets := if Sent(s, r, SOFT_RESET) then h.softResets + 1 else h.softResets))
  {
  }

  lemma AttachedKeepsSink(q: Port, h: History, o: PollOutcome, t: nat)
    requires SinkInv(q.pd, h) && q.hw == Attached
    ensures var r := q.(pd := CheckAttached(q.pd, o, Millis(t))); SinkInv(r.pd, ObservePoll(h, q, r, o, t))
  {
    var s := CheckAms(q.pd, Millis(t));
    UntouchedKeeps(q.pd, s, h);
    if !s.activeAms {
      RetryKeeps(s, h, o, Millis(t));
    }
  }

  lemma ControlKeepsSink(s: Sink, h: History, m: Incoming, now: nat)
    requires SinkInv(s, h) && m.objects == []
    ensures !Sent(s, HandleControl(s, m, now), SOFT_RESET) && SinkInv(HandleControl(s, m, now), h)
  {
    if m.kind == GOODCRC {
    } else if m.kind == ACCEPT {
      if s.activeAms && !SameContract(s.requested, s.accepted) {
      }
    } else if m.kind == PS_RDY {
    } else if m.kind == SOFT_RESET {
    } else if m.kind == GET_SINK_CAP {
    }
  }

  lemma MessageKeepsSink(s: Sink, h: History, m: Incoming, t: nat)
    requires SinkInv(s, h)
    ensures var k := if IsSourceCap(m) && m.id != s.lastId then h.(caps := m.objects, openedAt := t) else h;
            !Sent(s, HandleMessage(s, m, Millis(t)), SOFT_RESET) && SinkInv(HandleMessage(s, m, Millis(t)), k)
  {
    var now := Millis(t);
    if IsGoodCrc(m) || m.id == s.lastId {
    } else if m.objects == [] {
      ControlKeepsSink(s.(lastId := m.id), h, m, now);
    } else if m.kind == SOURCE_CAP {
    }
  }

  // ---------------------------------------------------------------- every event

  lemma LossKeeps(p: Port, h: History, o: PollOutcome, clock: nat, t: nat)
    requires LineInv(p, clock, h.m) && clock <= t && SinkInv(p.pd, h)
    ensures var q := HandleLoss(p, o, Millis(t)); LineInv(q, t, h.m) && SinkInv(q.pd, h)
  {
    if p.vbusLost && p.hw == Attached {
      UntouchedKeeps(p.pd, HandleLoss(p, o, Millis(t)).pd, h);
    }
  }

  lemma CheckKeeps(q: Port, h: History, o: PollOutcome, t: nat)
    requires LineInv(q, t, h.m) && SinkInv(q.pd, h) && h.openedAt <= t
    ensures var r := CheckStatus(q, o, Millis(t)); Inv(World(r, t, ObservePoll(h, q, r, o, t)))
  {
    match q.hw
    case Unattached =>
      UnattachedKeepsLine(q, h.m, o, t, t);
      UnattachedShape(q, o, Millis(t));
      UnattachedKeepsSink(q, CheckUnattached(q, o, Millis(t)), h, o, t);
    case Attached => AttachedKeepsSink(q, h, o, t);
    case Failed =>
  }

  lemma PublishKeeps(r: Port, k: History, t: nat)
    requires Inv(World(r, t, k))
    ensures Inv(World(r.(pd := PublishContract(r.pd, Millis(t))), t, k))
  {
    UntouchedKeeps(r.pd, PublishContract(r.pd, Millis(t)), k);
  }

  lemma PollKeeps(w: World, o: PollOutcome, t: nat)
    requires Inv(w) && w.clock <= t
    ensures Inv(NextAt(w, Poll(o), t))
  {
    var q := HandleLoss(w.p, o, Millis(t));
    LossKeeps(w.p, w.h, o, w.clock, t);
    CheckKeeps(q, w.h, o, t);
    var r := CheckStatus(q, o, Millis(t));
    PublishKeeps(r, ObservePoll(w.h, q, r, o, t), t);
  }

  lemma OtherKeeps(w: World, e: Event, t: nat)
    requires Inv(w) && w.clock <= t && !e.Poll? && !e.Message?
    ensures Inv(NextAt(w, e, t))
  {
    var r := Step(w.p, e, Millis(t));
    assert LineInv(r, t, w.h.m);
    if e.AskVoltage? {
      var s, k := RequestVoltage(w.p.pd, e.volts), Observe(w, e, t);
      assert SinkInv(s, k);
    } else {
      UntouchedKeeps(w.p.pd, r.pd, w.h);
    }
  }

  lemma MessageKeeps(w: World, m: Incoming, t: nat)
    requires Inv(w) && w.clock <= t
    ensures Inv(NextAt(w, Message(m), t))
  {
    MessageKeepsSink(w.p.pd, w.h, m, t);
  }

  lemma StepKeeps(w: World, e: Event, t: nat)
    requires Inv(w) && w.clock <= t
    ensures Inv(NextAt(w, e, t))
  {
    if e.Poll? {
      PollKeeps(w, e.o, t);
    } else if e.Message? {
      MessageKeeps(w, e.m, t);
    } else {
      OtherKeeps(w, e, t);
    }
  }

  lemma {:induction false} RunKeeps(w: World, xs: seq<Timed>)
    requires Inv(w) && Ordered(w.clock, xs)
    ensures Inv(Run(w, xs))
    decreases |xs|
  {
    if xs == [] {
    } else {
      StepKeeps(w, xs[0].e, xs[0].at);
      RunKeeps(NextAt(w, xs[0].e, xs[0].at), xs[1..]);
    }
  }

  lemma {:induction false} RunSnoc(w: World, xs: seq<Timed>, x: Timed)
    ensures Run(w, xs + [x]) == NextAt(Run(w, xs), x.e, x.at)
    decreases |xs|
  {
    if xs == [] {
      assert xs + [x] == [x] && Run(NextAt(w, x.e, x.at), []) == NextAt(w, x.e, x.at);
    } else {
      RunSnoc(NextAt(w, xs[0].e, xs[0].at), xs[1..], x);
      assert (xs + [x])[1..] == xs[1..] + [x];
    }
  }

  lemma BootInv(w: World)
    requires Boot(w)
    ensures Inv(w)
  {
  }

  // ---------------------------------------------------------------- theorems

  /** Over every run, an Accept that takes effect leaves the contract within the requested
      voltage exactly when the capabilities it answers offered something that is. */
  lemma AcceptRespectsRequest(w0: World, xs: seq<Timed>, m: Incoming, now: nat)
    requires Boot(w0) && Ordered(w0.clock, xs)
    requires var s := Run(w0, xs).p.pd;
             m.objects == [] && m.kind == ACCEPT && m.id != s.lastId && s.activeAms
    ensures var w := Run(w0, xs);
            var s := HandleMessage(w.p.pd, m, now);
            && |w.h.caps| <= MAX_OBJECTS && s.requestVoltage == w.h.wanted
            && s.accepted == Answer(w.h.caps, w.h.wanted).0
            && (s.contractVoltage <= w.h.wanted <==> Respectable(w.h.caps, w.h.wanted))
            && (AnyUsable(w.h.caps) ==>
                  exists i: nat :: Chosen(w.h.caps, w.h.wanted, i) && s.contractVoltage == OfferedVolts(w.h.caps[i]))
            && (!AnyUsable(w.h.caps) ==> s.contractVoltage == 5)
  {
    BootInv(w0);
    RunKeeps(w0, xs);
    var w := Run(w0, xs);
    AnswerRespectsVoltage(w.h.caps, w.h.wanted);
    AcceptAdopts(w.p.pd, m, now);
    AnswerVolts(w.h.caps, w.h.wanted);
  }

  /** Whatever was asked for last while no negotiation was open is what the next capabilities
      are answered for: one request, naming the object the rule singles out for that voltage. */
  lemma LastRequestIsAnswered(w0: World, xs: seq<Timed>, m: Incoming, now: nat) returns (i: nat, request: bv32)
    requires Boot(w0) && Ordered(w0.clock, xs)
    requires m.objects != [] && m.kind == 1 && m.id != Run(w0, xs).p.pd.lastId
    ensures var w := Run(w0, xs);
            && HandleMessage(w.p.pd, m, now).sent ==
                 w.p.pd.sent + [PdMsg(2, 1, w.p.pd.msgCounter % 8, false, [request])]
            && (AnyUsable(m.objects) ==>
                  && Chosen(m.objects, w.h.wanted, i)
                  && Asks(request, i + 1, m.objects[i] & 0x3FF, m.objects[i] & 0x3FF))
            && (!AnyUsable(m.objects) ==> Asks(request, 1, 10, 30))
  {
    BootInv(w0);
    RunKeeps(w0, xs);
    var w := Run(w0, xs);
    CapabilitiesAreAnswered(w.p.pd, m, now);
    i := AnswerDecodes(m.objects, w.h.wanted);
    request := Answer(m.objects, w.h.wanted).1;
  }

  /** A negotiation still open at a pass of an attached port outlasts it exactly if at most two
      seconds of real time have gone by since the capabilities, short of a whole turn of the
      counter. */
  lemma NegotiationTimesOut(w0: World, xs: seq<Timed>, o: PollOutcome, t: nat)
    requires Boot(w0) && Ordered(w0.clock, xs)
    requires var w := Run(w0, xs);
             w.p.hw == Attached && !w.p.vbusLost && w.p.pd.activeAms && w.clock <= t < w.h.openedAt + U32_MOD
    ensures var w := Run(w0, xs);
            && (NextAt(w, Poll(o), t).p.pd.activeAms <==> t <= w.h.openedAt + 2000)
            && (t <= w.h.openedAt + 2000 ==>
                  NextAt(w, Poll(o), t).p.pd.retry == w.p.pd.retry && NextAt(w, Poll(o), t).p.pd.sent == w.p.pd.sent)
  {
    BootInv(w0);
    RunKeeps(w0, xs);
    var w := Run(w0, xs);
    ElapsedIsSafe(w.h.openedAt, t);
    assert HandleLoss(w.p, o, Millis(t)) == w.p;
    var s := CheckAms(w.p.pd, Millis(t));
    assert s.activeAms <==> t <= w.h.openedAt + 2000;
    if !s.activeAms {
      RetryAdvances(s, o, Millis(t));
      assert CheckAttached(w.p.pd, o, Millis(t)) == RetryStep(s, o, Millis(t)) == CheckAttached(s, o, Millis(t));
    }
  }

  /** A pass after the loss of VBUS leaves an attached port detached, with no negotiation open
      and nothing waited for. */
  lemma LossDetaches(p: Port, o: PollOutcome, now: nat)
    requires p.hw == Attached && p.vbusLost
    ensures var r := Loop(p, o, now);
            && r.hw == Unattached && !r.vbusLost && !r.pd.activeAms && !r.pd.retry.waiting
            && r.pd.state == Disconnected && r.pd.prevState == p.pd.state && r.pd.sent == p.pd.sent
            && (o.lossLock ==> r.pd.lastId == 255 && r.pd.msgCounter == 0)
            && (now != 0 ==> r.cc == p.cc.(phase := CcIdle, retryAfter := now))
  {
    var q := HandleLoss(p, o, now);
    assert q.hw == Unattached && q.cc.phase == CcIdle;
    IdlePassMeasures(q, o, now);
  }

  /** The reader task: on its start it enables the automatic CRC and resets the ids, each if it
      gets the bus; on VBUS dropping it only leaves word for that pass. */
  lemma ReaderTaskSteps(p: Port, crcLock: bool, resetLock: bool, now: nat)
    ensures Step(p, VbusDropped, now) == p.(vbusLost := true)
    ensures var r := Step(p, ReaderStarted(crcLock, resetLock), now);
            && r.switches1 == (if crcLock then p.switches1 | 0x04 else p.switches1)
            && r.pd == (if resetLock then p.pd.(lastId := 255, msgCounter := 0) else p.pd)
            && r.hw == p.hw && r.cc == p.cc && r.switches0 == p.switches0
  {
  }

  /** A pass that has to wait, or cannot get the bus, changes nothing. */
  predicate MustWait(p: Port, o: PollOutcome, now: nat) {
    || (p.startup != 0 && Elapsed(now, p.startup) < 2000)
    || (p.cc.retryAfter != 0 && Elapsed(now, p.cc.retryAfter) < 500)
    || (p.cc.phase != CcIdle && Elapsed(now, p.cc.start) < 5)
    || !o.lock
  }

  lemma IdlePassMeasures(p: Port, o: PollOutcome, now: nat)
    requires p.hw == Unattached && p.cc.phase == CcIdle
    ensures var r := CheckUnattached(p, o, now);
            && r.pd == p.pd && r.hw == Unattached && r.vbusLost == p.vbusLost && r.startup == p.startup
            && (MustWait(p, o, now) ==> r == p)
            && (!MustWait(p, o, now) ==>
                  r.cc == p.cc.(phase := SettleCc1, start := now) && r.switches0 == 0x07 && r.switches1 == 0x20)
  {
  }

  /** The first line: a stable level is kept and the second line selected, an unstable one
      starts the back-off. */
  lemma FirstLineMeasured(p: Port, o: PollOutcome, now: nat)
    requires p.hw == Unattached && p.cc.phase == SettleCc1
    ensures var r := CheckUnattached(p, o, now);
            && r.pd == p.pd && r.hw == Unattached && r.startup == p.startup && r.switches1 == p.switches1
            && (MustWait(p, o, now) ==> r == p)
            && (!MustWait(p, o, now) && Stable(o.samples) ==>
                  r.cc == Cc(SettleCc2, now, p.cc.retryAfter, o.samples[0]) && r.switches0 == 0x0B)
            && (!MustWait(p, o, now) && !Stable(o.samples) ==> r.cc.phase == CcIdle && r.cc.retryAfter == now)
  {
  }

  /** The second line: the port attaches if and only if the level is stable, exactly one of the
      two lines carries one, and the task exists or can be created. */
  lemma AttachesIff(p: Port, o: PollOutcome, now: nat)
    requires p.hw == Unattached && p.cc.phase == SettleCc2
    ensures var r := CheckUnattached(p, o, now);
            var one := Stable(o.samples) && (p.cc.level1 > 0 <==> o.samples[0] == 0);
            && (MustWait(p, o, now) ==> r == p)
            && (r.hw == Attached <==> !MustWait(p, o, now) && one && (p.startup == 0 || o.spawned))
            && (!MustWait(p, o, now) && one && !(p.startup == 0 || o.spawned) ==> r.hw == Failed && r.pd.state == PdError)
            && (!MustWait(p, o, now) && !one ==> r.hw == Unattached && r.cc.phase == CcIdle && r.cc.retryAfter == now)
            && (r.hw == Attached ==> r.startup == 0 && AttachedOn(p, r, p.cc.level1 > 0, o, now))
  {
    var first := p.cc.level1 > 0;
    AttachesOn(p, first, o, now);
    if MustWait(p, o, now) {
    } else if Stable(o.samples) && p.cc.level1 > 0 && o.samples[0] == 0 {
    } else if Stable(o.samples) && p.cc.level1 == 0 && o.samples[0] > 0 {
    }
  }

  /** Attached on the first or second line: both switches on it, the retry machine started, and
      on any attach but the first one the automatic CRC enabled and the ids reset. */
  predicate AttachedOn(p: Port, r: Port, first: bool, o: PollOutcome, now: nat) {
    && r.switches0 == (if first then 0x07 else 0x0B)
    && r.switches1 == (if first then 0x21 else 0x22) | (if p.startup == 0 && o.crcLock then 0x04 else 0)
    && r.pd.retry == Retry(true, false, 0, now) && r.pd.state == DefaultContract && r.pd.prevState == p.pd.state
    && r.pd.lastId == (if p.startup == 0 && o.resetLock then 255 else p.pd.lastId)
    && r.pd.msgCounter == (if p.startup == 0 && o.resetLock then 0 else p.pd.msgCounter)
    && r.pd.sent == p.pd.sent
  }

  lemma AttachesOn(p: Port, first: bool, o: PollOutcome, now: nat)
    requires p.hw == Unattached
    ensures var r := Attach(SelectLine(p, first), o, now);
            && (if p.startup == 0 || o.spawned then r.hw == Attached else r.hw == Failed && r.pd.state == PdError)
            && (r.hw == Attached ==> r.startup == 0 && AttachedOn(p, r, first, o, now))
  {
    if p.startup != 0 {
      if o.spawned {
      }
    } else if o.crcLock {
      if first {
      }
    }
  }

  /** A new contract is announced once, more than a second after it was made. */
  lemma ContractIsAnnounced(p: Port, o: PollOutcome, now: nat)
    requires p.hw == Attached && !p.vbusLost
    ensures var due := p.pd.contractTimer != 0 && Elapsed(now, p.pd.contractTimer) > 1000;
            Loop(p, o, now).pd.contractTimer == if due then 0 else p.pd.contractTimer
  {
    var s := CheckAms(p.pd, now);
    assert HandleLoss(p, o, now) == p;
    if !s.activeAms {
      RetryAdvances(s, o, now);
      RetryKeepsContract(s, o, now);
    }
  }

  lemma RetryKeepsContract(s: Sink, o: PollOutcome, now: nat)
    ensures RetryStep(s, o, now).contractTimer == s.contractTimer
  {
    if !Due(s.retry, now) {
    } else if s.retry.count == 0 {
    } else if !s.retry.tried {
      if o.resetLock {
      }
    }
  }

  /** At most one Soft_Reset per attach, and Get_Source_Cap is never sent, whatever
      messages, polls, lock failures and voltage requests are interleaved. */
  lemma SoftResetAtMostOnce(w0: World, xs: seq<Timed>)
    requires Boot(w0) && Ordered(w0.clock, xs)
    ensures var w := Run(w0, xs);
            && w.h.softResets <= 1
            && forall i :: 0 <= i < |w.p.pd.sent| ==> w.p.pd.sent[i].kind != GET_SOURCE_CAP || w.p.pd.sent[i].objects != []
  {
    BootInv(w0);
    RunKeeps(w0, xs);
  }

  /** Whenever the port is attached, each CC line was read stably at least 5 ms of real time
      after it was selected, exactly one of them carried a level, and both the measuring and
      the transmitting switch are on that line. */
  lemma AttachedOnEvidence(w0: World, xs: seq<Timed>)
    requires Boot(w0) && Ordered(w0.clock, xs)
    ensures var w := Run(w0, xs); w.p.hw == Attached ==> AttachEvidence(w.p, w.h.m)
  {
    BootInv(w0);
    RunKeeps(w0, xs);
  }

  // ---------------------------------------------------------------- the retry timeline

  /** No capabilities arrive, nothing detaches, nobody asks for another voltage. */
  predicate Quiet(e: Event) {
    e.Poll? || e.ReaderStarted? || (e.Message? && !IsSourceCap(e.m))
  }

  /** Where the retry machine stands after each of its actions since the attach. */
  predicate Timeline(w: World) {
    var s, r, h := w.p.pd, w.p.pd.retry, w.h;
    && w.p.hw == Attached && !w.p.vbusLost && !s.activeAms && h.duePolls <= 3
    && r.waiting == (h.duePolls < 3) && r.tried == (h.duePolls >= 2)
    && h.softResets == (if h.duePolls >= 2 then 1 else 0)
    && (h.duePolls < 3 ==> r.count == h.duePolls)
    && (h.duePolls >= 1 ==> h.polledAt <= w.clock)
    && (h.duePolls == 1 ==> r.stamp == Millis(h.polledAt))
    && (h.duePolls >= 2 ==> h.polledAt + SRC_CAP_WAIT_MS <= h.resetAt <= w.clock)
    && (h.duePolls == 2 ==> r.stamp == Millis(h.resetAt))
    && (h.duePolls == 3 ==> h.resetAt + SRC_CAP_WAIT_MS <= h.gaveUpAt <= w.clock)
  }

  /** A wait that is over on the wrapped clock is over in real time; and it is over on the
      wrapped clock once it is in real time, short of a whole turn of the counter. */
  lemma WaitIsReal(r: Retry, since: nat, t: nat)
    requires r.stamp == Millis(since) && since <= t && r.waiting && r.count != 0
    ensures Due(r, Millis(t)) ==> since + SRC_CAP_WAIT_MS <= t
    ensures since + SRC_CAP_WAIT_MS <= t < since + U32_MOD ==> Due(r, Millis(t))
  {
    ElapsedIsSafe(since, t);
  }

  /** One status check, seen by the retry machine alone. */
  lemma RetryAdvances(s: Sink, o: PollOutcome, now: nat)
    requires !s.activeAms
    ensures var r := CheckAttached(s, o, now);
            && !r.activeAms
            && (!Due(s.retry, now) ==> r == s)
            && (Due(s.retry, now) && s.retry.count == 0 ==>
                  r.retry == s.retry.(count := 1, stamp := now) && r.sent == s.sent)
            && (Due(s.retry, now) && s.retry.count > 0 && !s.retry.tried ==>
                  && r.retry == Retry(true, true, 2, now) && Sent(s, r, SOFT_RESET) && r.state == s.state
                  && r.sent == s.sent + [PdMsg(0x0D, 1, if o.resetLock then 0 else s.msgCounter % 8, false, [])]
                  && r.lastId == (if o.resetLock then 255 else s.lastId))
            && (Due(s.retry, now) && s.retry.count > 0 && s.retry.tried ==>
                  !r.retry.waiting && r.retry.tried && r.sent == s.sent && r.state == PdTimeout)
  {
    if !Due(s.retry, now) {
    } else if s.retry.count == 0 {
    } else if !s.retry.tried {
      if o.resetLock {
      }
    }
  }

  /** A voltage asked for while attached and not negotiating is acted on by the next pass,
      whatever the retry machine was waiting for; while negotiating it is refused. */
  lemma RequestIsActedOn(p: Port, volts: int, o: PollOutcome, asked: nat, now: nat)
    requires p.hw == Attached && !p.vbusLost
    ensures var q := Step(p, AskVoltage(volts), asked);
            && (p.pd.activeAms ==> q == p)
            && (!p.pd.activeAms ==>
                  && q.pd.requestVoltage == volts && q.pd.sent == p.pd.sent && q.pd.retry.tried == p.pd.retry.tried
                  && Loop(q, o, now).pd.retry == Retry(true, p.pd.retry.tried, 1, now))
  {
    var q := Step(p, AskVoltage(volts), asked);
    if !p.pd.activeAms {
      assert HandleLoss(q, o, now) == q;
      RetryAdvances(q.pd, o, now);
    }
  }

  lemma PollKeepsTimeline(w: World, o: PollOutcome, t: nat)
    requires Timeline(w) && w.clock <= t
    ensures Timeline(NextAt(w, Poll(o), t))
    ensures NextAt(w, Poll(o), t).h.duePolls ==
              (if Due(w.p.pd.retry, Millis(t)) then w.h.duePolls + 1 else w.h.duePolls)
    ensures w.h.duePolls == 2 && Due(w.p.pd.retry, Millis(t)) ==> NextAt(w, Poll(o), t).p.pd.state == PdTimeout
  {
    var now := Millis(t);
    assert HandleLoss(w.p, o, now) == w.p;
    RetryAdvances(w.p.pd, o, now);
    if w.h.duePolls == 1 {
      WaitIsReal(w.p.pd.retry, w.h.polledAt, t);
    } else if w.h.duePolls == 2 {
      WaitIsReal(w.p.pd.retry, w.h.resetAt, t);
    }
  }

  lemma MessageKeepsTimeline(w: World, m: Incoming, t: nat)
    requires Timeline(w) && w.clock <= t && !IsSourceCap(m)
    ensures Timeline(NextAt(w, Message(m), t)) && NextAt(w, Message(m), t).h.duePolls == w.h.duePolls
  {
    var s := HandleMessage(w.p.pd, m, Millis(t));
    assert !s.activeAms && s.retry == w.p.pd.retry && !Sent(w.p.pd, s, SOFT_RESET);
  }

  lemma QuietKeepsTimeline(w: World, e: Event, t: nat)
    requires Timeline(w) && w.clock <= t && Quiet(e)
    ensures Timeline(NextAt(w, e, t))
  {
    if e.Poll? {
      PollKeepsTimeline(w, e.o, t);
    } else if e.Message? {
      MessageKeepsTimeline(w, e.m, t);
    }
  }

  /** What holds with voltage requests in between as well, which restart the counting but not
      the record of a Soft_Reset. */
  predicate Paced(w: World) {
    var s, r, h := w.p.pd, w.p.pd.retry, w.h;
    && w.p.hw == Attached && !w.p.vbusLost && !s.activeAms
    && h.softResets == (if r.tried then 1 else 0)
    && (r.count != 0 ==> h.duePolls > 0 && r.stamp == Millis(h.actedAt))
    && (h.duePolls > 0 ==> h.polledAt <= h.actedAt <= w.clock)
    && (r.tried ==> h.duePolls > 0 && h.polledAt + SRC_CAP_WAIT_MS <= h.resetAt <= h.actedAt)
    && (h.gaveUps > 0 ==> r.tried && h.resetAt + SRC_CAP_WAIT_MS <= h.gaveUpAt <= w.clock)
  }

  lemma PollKeepsPace(w: World, o: PollOutcome, t: nat)
    requires Paced(w) && w.clock <= t
    ensures Paced(NextAt(w, Poll(o), t))
  {
    var now := Millis(t);
    var s := w.p.pd;
    assert HandleLoss(w.p, o, now) == w.p;
    RetryAdvances(s, o, now);
    if Due(s.retry, now) && s.retry.count != 0 {
      WaitIsReal(s.retry, w.h.actedAt, t);
    }
  }

  lemma MessageKeepsPace(w: World, m: Incoming, t: nat)
    requires Paced(w) && w.clock <= t && !IsSourceCap(m)
    ensures Paced(NextAt(w, Message(m), t))
  {
    MessageKeepsRetry(w.p.pd, m, Millis(t));
  }

  lemma MessageKeepsRetry(s: Sink, m: Incoming, now: nat)
    requires !s.activeAms && !IsSourceCap(m)
    ensures var r := HandleMessage(s, m, now);
            !r.activeAms && r.retry == s.retry && !Sent(s, r, SOFT_RESET)
  {
    if IsGoodCrc(m) || m.id == s.lastId {
    } else if m.objects == [] {
    }
  }

  predicate QuietOrAsking(e: Event) {
    Quiet(e) || e.AskVoltage?
  }

  lemma {:induction false} PacedRun(w: World, xs: seq<Timed>)
    requires Paced(w) && Ordered(w.clock, xs)
    requires forall i :: 0 <= i < |xs| ==> QuietOrAsking(xs[i].e)
    ensures Paced(Run(w, xs))
    decreases |xs|
  {
    if xs == [] {
    } else {
      var e, t := xs[0].e, xs[0].at;
      if e.Poll? {
        PollKeepsPace(w, e.o, t);
      } else if e.Message? {
        MessageKeepsPace(w, e.m, t);
      }
      PacedRun(NextAt(w, e, t), xs[1..]);
    }
  }

  /** An attach with no negotiation open starts the timeline. */
  lemma AttachStartsTimeline(w: World, o: PollOutcome, t: nat)
    requires w.p.hw == Unattached && !w.p.pd.activeAms && NextAt(w, Poll(o), t).p.hw == Attached
    ensures Timeline(NextAt(w, Poll(o), t)) && NextAt(w, Poll(o), t).h.duePolls == 0
    ensures Paced(NextAt(w, Poll(o), t))
  {
    var q := HandleLoss(w.p, o, Millis(t));
    assert q == w.p.(vbusLost := false);
    FreshRetry(q, o, Millis(t));
  }

  lemma FreshRetry(q: Port, o: PollOutcome, now: nat)
    requires q.hw == Unattached && CheckUnattached(q, o, now).hw == Attached
    ensures var r := CheckUnattached(q, o, now);
            r.pd.retry == Retry(true, false, 0, now) && r.vbusLost == q.vbusLost && r.pd.activeAms == q.pd.activeAms
  {
    match q.cc.phase
    case CcIdle =>
    case SettleCc1 =>
    case SettleCc2 =>
      FreshAttach(SelectLine(q, true), o, now);
      FreshAttach(SelectLine(q, false), o, now);
      if q.cc.level1 > 0 && o.samples[0] == 0 {
      } else if q.cc.level1 == 0 && o.samples[0] > 0 {
      }
  }

  lemma FreshAttach(q: Port, o: PollOutcome, now: nat)
    ensures var r := Attach(q, o, now);
            r.hw == Attached ==>
              r.pd.retry == Retry(true, false, 0, now) && r.vbusLost == q.vbusLost && r.pd.activeAms == q.pd.activeAms
  {
    if q.startup == 0 {
    } else if o.spawned {
    }
  }

  /** However often another voltage is asked for in between, as long as no capabilities arrive
      and nothing detaches: whenever the machine gives up, exactly one Soft_Reset was sent, and
      at least ten seconds of real time have passed since its first action. */
  lemma GivingUpIsPatient(w: World, xs: seq<Timed>)
    requires Paced(w) && Ordered(w.clock, xs)
    requires forall i :: 0 <= i < |xs| ==> QuietOrAsking(xs[i].e)
    ensures var v := Run(w, xs);
            && v.h.softResets <= 1
            && (v.h.gaveUps > 0 ==> v.h.softResets == 1 && v.h.polledAt + 10000 <= v.h.gaveUpAt <= v.clock)
  {
    PacedRun(w, xs);
  }

  /** With no capabilities, no detach and no voltage request, the machine acts at most three
      times: the third action is giving up, exactly one Soft_Reset lies between, and giving
      up comes at least ten seconds of real time after the first action. */
  lemma {:induction false} TimeoutSchedule(w: World, xs: seq<Timed>)
    requires Timeline(w) && w.h.duePolls == 0 && Ordered(w.clock, xs)
    requires forall i :: 0 <= i < |xs| ==> Quiet(xs[i].e)
    ensures var v := Run(w, xs);
            && v.h.duePolls <= 3
            && v.h.softResets == (if v.h.duePolls >= 2 then 1 else 0)
            && (v.h.duePolls == 3 <==> !v.p.pd.retry.waiting)
            && (v.h.duePolls == 3 ==> v.h.polledAt + 10000 <= v.h.gaveUpAt <= v.clock)
  {
    QuietRun(w, xs);
  }

  lemma {:induction false} QuietRun(w: World, xs: seq<Timed>)
    requires Timeline(w) && Ordered(w.clock, xs)
    requires forall i :: 0 <= i < |xs| ==> Quiet(xs[i].e)
    ensures Timeline(Run(w, xs))
    decreases |xs|
  {
    if xs == [] {
    } else {
      QuietKeepsTimeline(w, xs[0].e, xs[0].at);
      QuietRun(NextAt(w, xs[0].e, xs[0].at), xs[1..]);
    }
  }

  /** The ranking: while the machine still waits, a pass that comes at least five seconds
      and less than one turn of the clock after its last action takes it one action nearer
      the end, and the last of the three enters PD_TIMEOUT. */
  lemma PatientPollAdvances(w: World, o: PollOutcome, t: nat)
    requires Timeline(w) && w.h.duePolls < 3 && w.clock <= t
    requires w.h.duePolls > 0 ==>
               var since := if w.h.duePolls == 1 then w.h.polledAt else w.h.resetAt;
               since + SRC_CAP_WAIT_MS <= t < since + U32_MOD
    ensures var v := NextAt(w, Poll(o), t);
            && 3 - v.h.duePolls == 3 - w.h.duePolls - 1
            && (v.h.duePolls == 3 ==> v.p.pd.state == PdTimeout && v.h.gaveUpAt == t)
  {
    PollKeepsTimeline(w, o, t);
    if w.h.duePolls == 1 {
      WaitIsReal(w.p.pd.retry, w.h.polledAt, t);
    } else if w.h.duePolls == 2 {
      WaitIsReal(w.p.pd.retry, w.h.resetAt, t);
      RetryAdvances(w.p.pd, o, Millis(t));
    }
  }
}
