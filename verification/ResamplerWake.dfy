/** When `loop()` runs at all. A stopped speaker that finds the event group empty disables its
    own loop; a sender first asks for the loop to be enabled, which happens when the main
    thread begins its next iteration, and then sets its bit. */
module ResamplerWake {
  import opened Resampler

  /** enabled:   the main thread calls `loop()`
      requested: it will enable it at the beginning of its next iteration
      disabling: `loop()` has read no bits in the stopped state and is about to disable itself
      sending:   commands whose senders have asked for the loop and not yet set their bit
      late:      a bit was set while deaf, and it has been deaf ever since */
  datatype Wake = Wake(
    s: System, enabled: bool, requested: bool, disabling: bool, sending: multiset<Command>, late: bool)

  const ASLEEP := Wake(INITIAL, false, false, false, multiset{}, false)

  datatype Event =
    | Iterate
    | Stage(o: LoopOutcome)
    | TaskStage(setup: Setup, work: Work)
    | BeginSend(c: Command)
    | EndSend(c: Command)

  /** Nothing makes the loop look at the event group again, short of another request. */
  predicate Deaf(w: Wake) {
    !w.requested && (!w.enabled || w.disabling)
  }

  /** The read at the end of a pass of a stopped speaker, finding nothing. */
  predicate EmptyRead(w: Wake, e: Event) {
    e.Stage? && !w.disabling && w.s.pc == Dispatch && w.s.mode == Stopped && w.s.bits == NO_BITS
  }

  /** Whether it is this event's turn; one whose turn it is not changes nothing. */
  predicate Can(w: Wake, e: Event) {
    match e
    case Iterate => w.s.pc == Outside && !w.disabling
    case Stage(_) => w.disabling || w.enabled || w.s.pc != Outside
    case EndSend(c) => c in w.sending
    case _ => true
  }

  function Effect(w: Wake, e: Event): Wake {
    match e
    case Iterate => w.(enabled := w.enabled || w.requested, requested := false)
    case Stage(o) =>
      if w.disabling then w.(enabled := false, disabling := false)
      else w.(s := RunLoop(w.s, o), disabling := EmptyRead(w, e))
    case TaskStage(setup, work) => w.(s := RunTask(w.s, setup, work))
    case BeginSend(c) => w.(requested := true, sending := w.sending + multiset{c})
    case EndSend(c) => w.(s := Resampler.Next(w.s, Send(c)), sending := w.sending - multiset{c})
  }

  function Next(w: Wake, e: Event): Wake {
    if !Can(w, e) then w
    else
      var v := Effect(w, e);
      v.(late := Deaf(v) && (w.late || e.EndSend?))
  }

  function Run(w: Wake, es: seq<Event>): Wake
    decreases |es|
  {
    if es == [] then w else Run(Next(w, es[0]), es[1..])
  }

  predicate AnyCommand(b: Bits) {
    b.cmdStart || b.cmdStop || b.cmdFinish
  }

  /** A command is pending and nobody is going to look. */
  predicate Stuck(w: Wake) {
    Deaf(w) && AnyCommand(w.s.bits)
  }

  // ---------------------------------------------------------------- the invariant

  predicate WakeInv(w: Wake) {
    && Inv(w.s)
    && (w.disabling ==> w.enabled && w.s.pc == Outside && w.s.mode == Stopped)
    && (!w.enabled ==> w.s.pc == Outside && w.s.mode == Stopped)
    && (w.late <==> Stuck(w))
  }

  lemma DisableKeeps(w: Wake, o: LoopOutcome)
    requires WakeInv(w) && w.disabling
    ensures WakeInv(Next(w, Stage(o)))
  {
  }

  lemma EmptyReadKeeps(w: Wake, o: LoopOutcome)
    requires WakeInv(w) && EmptyRead(w, Stage(o))
    ensures WakeInv(Next(w, Stage(o)))
  {
    LoopKeeps(w.s, o);
    assert RunLoop(w.s, o) == w.s.(pc := Outside);
  }

  lemma StageKeeps(w: Wake, o: LoopOutcome)
    requires WakeInv(w) && !w.disabling && w.enabled && !EmptyRead(w, Stage(o))
    ensures WakeInv(Next(w, Stage(o)))
  {
    LoopKeeps(w.s, o);
    var v := Next(w, Stage(o));
    assert v.s == RunLoop(w.s, o) && v.enabled && !v.disabling;
  }

  lemma TaskStageKeeps(w: Wake, setup: Setup, work: Work)
    requires WakeInv(w)
    ensures WakeInv(Next(w, TaskStage(setup, work)))
  {
    TaskKeeps(w.s, setup, work);
    TaskKeepsSafe(w.s, setup, work);
    var v := Next(w, TaskStage(setup, work));
    assert v.s == RunTask(w.s, setup, work) && v.s.pc == w.s.pc;
  }

  lemma EndSendKeeps(w: Wake, c: Command)
    requires WakeInv(w) && c in w.sending
    ensures WakeInv(Next(w, EndSend(c)))
  {
    Resampler.StepKeeps(w.s, Send(c));
    match c
    case Start =>
    case Stop =>
    case Finish =>
  }

  lemma WakeStepKeeps(w: Wake, e: Event)
    requires WakeInv(w)
    ensures WakeInv(Next(w, e))
  {
    if Can(w, e) {
      match e
      case Iterate =>
      case Stage(o) =>
        if w.disabling {
          DisableKeeps(w, o);
        } else if EmptyRead(w, e) {
          EmptyReadKeeps(w, o);
        } else {
          StageKeeps(w, o);
        }
      case TaskStage(setup, work) => TaskStageKeeps(w, setup, work);
      case BeginSend(c) =>
      case EndSend(c) => EndSendKeeps(w, c);
    }
  }

  lemma {:induction false} WakeRunKeeps(w: Wake, es: seq<Event>)
    requires WakeInv(w)
    ensures WakeInv(Run(w, es))
    decreases |es|
  {
    if es == [] {
    } else {
      WakeStepKeeps(w, es[0]);
      WakeRunKeeps(Next(w, es[0]), es[1..]);
    }
  }

  // ---------------------------------------------------------------- theorems

  /** Over every run the loop is disabled only between passes of a stopped speaker without a
      task, and a command is stuck if and only if its bit was set while the loop was deaf. */
  lemma DisabledOnlyWhenStopped(es: seq<Event>)
    ensures var w := Run(ASLEEP, es);
            && (!w.enabled ==> w.s.mode == Stopped && w.s.task == NoTask && w.s.pc == Outside)
            && (Stuck(w) <==> w.late)
  {
    WakeRunKeeps(ASLEEP, es);
  }

  predicate NoRequest(es: seq<Event>) {
    forall i :: 0 <= i < |es| ==> !es[i].BeginSend?
  }

  /** Somewhere in `es`, with no request outstanding, a pass read the event group empty. */
  predicate Missed(w: Wake, es: seq<Event>)
    decreases |es|
  {
    es != [] && ((!w.requested && EmptyRead(w, es[0])) || Missed(Next(w, es[0]), es[1..]))
  }

  lemma DeafStep(w: Wake, e: Event)
    requires WakeInv(w) && !e.BeginSend?
    ensures Deaf(Next(w, e)) <==> Deaf(w) || (!w.requested && EmptyRead(w, e))
  {
    if Can(w, e) {
      match e
      case Iterate =>
      case Stage(o) =>
        if w.disabling {
        } else if EmptyRead(w, e) {
        }
      case TaskStage(setup, work) =>
      case EndSend(c) =>
    }
  }

  lemma {:induction false} DeafRun(w: Wake, es: seq<Event>)
    requires WakeInv(w) && NoRequest(es)
    ensures WakeInv(Run(w, es))
    ensures Deaf(Run(w, es)) <==> Deaf(w) || Missed(w, es)
    decreases |es|
  {
    if es == [] {
    } else {
      WakeStepKeeps(w, es[0]);
      DeafStep(w, es[0]);
      DeafRun(Next(w, es[0]), es[1..]);
    }
  }

  /** The sender is still on its way while nobody ends its send. */
  lemma {:induction false} StillSending(w: Wake, es: seq<Event>, c: Command)
    requires c in w.sending && EndSend(c) !in es
    ensures c in Run(w, es).sending
    decreases |es|
  {
    if es == [] {
    } else {
      assert es[0] != EndSend(c) && EndSend(c) !in es[1..];
      StillSending(Next(w, es[0]), es[1..], c);
    }
  }

  /** A command sent in any reachable state, `es` being all that happens between its request
      and its bit: it is stuck if and only if in between the request was served and a pass
      then read the event group empty. */
  lemma SendIsStuckIff(before: seq<Event>, c: Command, es: seq<Event>)
    requires NoRequest(es) && EndSend(c) !in es
    ensures var w := Next(Run(ASLEEP, before), BeginSend(c));
            Stuck(Next(Run(w, es), EndSend(c))) <==> Missed(w, es)
  {
    var v := Run(ASLEEP, before);
    WakeRunKeeps(ASLEEP, before);
    WakeStepKeeps(v, BeginSend(c));
    var w := Next(v, BeginSend(c));
    DeafRun(w, es);
    StillSending(w, es, c);
    LastStepSticks(Run(w, es), c);
  }

  lemma LastStepSticks(u: Wake, c: Command)
    requires WakeInv(u) && c in u.sending
    ensures Stuck(Next(u, EndSend(c))) <==> Deaf(u)
  {
    DeafStep(u, EndSend(c));
    RaisedIsPending(u.s.bits, c);
  }

  lemma RaisedIsPending(b: Bits, c: Command)
    ensures AnyCommand(Raised(b, c))
  {
    match c
    case Start =>
    case Stop =>
    case Finish =>
  }

  /** Once stuck, always stuck, and always stopped, until the next request. */
  lemma {:induction false} StuckUntilNextRequest(w: Wake, es: seq<Event>)
    requires WakeInv(w) && Stuck(w) && NoRequest(es)
    ensures Stuck(Run(w, es)) && Run(w, es).s.mode == Stopped
    decreases |es|
  {
    if es == [] {
    } else {
      WakeStepKeeps(w, es[0]);
      StuckStep(w, es[0]);
      StuckUntilNextRequest(Next(w, es[0]), es[1..]);
    }
  }

  lemma StuckStep(w: Wake, e: Event)
    requires WakeInv(w) && Stuck(w) && !e.BeginSend?
    ensures Stuck(Next(w, e))
  {
    DeafStep(w, e);
    if Can(w, e) {
      match e
      case Iterate =>
      case Stage(o) =>
      case TaskStage(setup, work) =>
        TaskKeepsSafe(w.s, setup, work);
      case EndSend(c) => RaisedIsPending(w.s.bits, c);
    }
  }

  // ---------------------------------------------------------------- a stuck command

  /** A stopped speaker with nothing to do, anywhere in a pass. */
  predicate Dozing(s: System) {
    && s == INITIAL.(pc := s.pc) && s.pc != ClearAll && Snapshot(s.pc) == NO_BITS
    && (s.pc.Commanding? ==> s.pc.snap == NO_BITS)
  }

  function StagesToRead(pc: LoopPc): nat {
    if pc == Outside then 12 else Remaining(pc)
  }

  lemma DozingStage(s: System, o: LoopOutcome)
    requires Dozing(s) && s.pc != Dispatch
    ensures Dozing(RunLoop(s, o)) && StagesToRead(RunLoop(s, o).pc) < StagesToRead(s.pc)
  {
    match s.pc
    case Commanding(snap) =>
    case CheckNoMem(snap) =>
    case CheckNotSupported(snap) =>
    case CheckFail(snap) =>
    case _ =>
  }

  /** The pass goes on to its empty read. */
  lemma {:induction false} DozingPass(w: Wake) returns (es: seq<Event>)
    requires Dozing(w.s) && w.enabled && !w.requested && !w.disabling
    ensures Missed(w, es) && forall i :: 0 <= i < |es| ==> es[i].Stage?
    decreases StagesToRead(w.s.pc)
  {
    var e := Stage(SILENT);
    if w.s.pc == Dispatch {
      es := [e];
    } else {
      DozingStage(w.s, SILENT);
      var rest := DozingPass(Next(w, e));
      es := [e] + rest;
      assert es[1..] == rest;
    }
  }

  /** The race is real: the first start ever sent can get stuck. */
  lemma StartGetsStuck() returns (es: seq<Event>)
    ensures var w := Run(ASLEEP, es); Stuck(w) && w.s.bits.cmdStart
  {
    var w := Next(ASLEEP, BeginSend(Start));
    var v := Next(w, Iterate);
    var rest := DozingPass(v);
    var middle := [Iterate] + rest;
    assert middle[1..] == rest && Missed(w, middle);
    SendIsStuckIff([], Start, middle);
    var u := Run(w, middle);
    es := [BeginSend(Start)] + middle + [EndSend(Start)];
    RunAppend(w, middle, [EndSend(Start)]);
    assert es[1..] == middle + [EndSend(Start)];
    assert Run(ASLEEP, es) == Run(w, es[1..]) == Run(u, [EndSend(Start)]) == Next(u, EndSend(Start));
    StillSending(w, middle, Start);
  }

  lemma {:induction false} RunAppend(w: Wake, a: seq<Event>, b: seq<Event>)
    ensures Run(w, a + b) == Run(Run(w, a), b)
    decreases |a|
  {
    if a == [] {
      assert a + b == b;
    } else {
      assert (a + b)[1..] == a[1..] + b;
      RunAppend(Next(w, a[0]), a[1..], b);
    }
  }
}
