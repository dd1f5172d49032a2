/** The resampler speaker: `loop()` against its task over one event group, in atomic steps
    that may interleave in any order. */
module Resampler {
  // ---------------------------------------------------------------- states

  datatype Mode = Stopped | Starting | Running | Stopping

  /** The event group. */
  datatype Bits = Bits(
    cmdStop: bool, cmdStart: bool, cmdFinish: bool, taskStop: bool,
    starting: bool, running: bool, stopping: bool, stopped: bool,
    noMem: bool, notSupported: bool, fail: bool)

  const NO_BITS := Bits(false, false, false, false, false, false, false, false, false, false, false)

  /** Where the resampling task is, if it exists. */
  datatype TaskPc = NoTask | Fresh | SettingUp | Looping | Resampling | Winding | Closing | Suspended

  /** Where `loop()` is; the later stages work on a snapshot of the bits. */
  datatype LoopPc =
    | Outside
    | Commanding(snap: Bits)
    | Reread
    | ClearStarting(snap: Bits)
    | CheckNoMem(snap: Bits)
    | CheckNotSupported(snap: Bits)
    | CheckFail(snap: Bits)
    | ClearRunning(snap: Bits)
    | ClearStopping(snap: Bits)
    | CheckStopped(snap: Bits)
    | ClearAll
    | Dispatch

  datatype System = System(mode: Mode, waiting: bool, task: TaskPc, bits: Bits, pc: LoopPc)

  const INITIAL := System(Stopped, false, NoTask, NO_BITS, Outside)

  /** What the output speaker, the clock and the allocator answer. */
  datatype LoopOutcome = LoopOutcome(
    outputRunning: bool, outputStopped: bool, timedOut: bool, needsTask: bool, created: bool)

  datatype Setup = SetupOk | SetupNoMem | SetupNotSupported | SetupOther
  datatype Work = Again | Finished | WorkFailed

  datatype Command = Start | Stop | Finish

  datatype Step =
    | LoopStep(o: LoopOutcome)
    | TaskStep(setup: Setup, work: Work)
    | Send(c: Command)

  // ---------------------------------------------------------------- loop()

  function EnterStopping(s: System): System {
    if s.task != NoTask then s.(mode := Stopping, bits := s.bits.(taskStop := true)) else s.(mode := Stopping)
  }

  /** An error report of the task: acknowledged and answered by stopping. */
  function OnError(s: System, hit: bool, acknowledged: Bits, next: LoopPc): System {
    if hit then EnterStopping(s.(bits := acknowledged, pc := next)) else s.(pc := next)
  }

  function ClearCommands(b: Bits): Bits {
    b.(cmdStop := false, cmdStart := false, cmdFinish := false)
  }

  /** Commands by priority: stop, finish, start. */
  function Commands(s: System, snap: Bits): System {
    if snap.cmdStop then
      if s.mode == Running || s.mode == Starting then
        EnterStopping(s.(bits := ClearCommands(s.bits), waiting := false))
      else if s.mode == Stopped then s.(bits := ClearCommands(s.bits))
      else s
    else if snap.cmdFinish then
      if s.mode == Running || s.mode == Stopped then s.(bits := s.bits.(cmdFinish := false)) else s
    else if snap.cmdStart then
      if s.mode == Stopped then s.(bits := s.bits.(cmdStart := false), mode := Starting)
      else if s.mode == Running then s.(bits := s.bits.(cmdStart := false))
      else s
    else s
  }

  /** `start_`, when it is this pass's turn; the task is created on the spot. */
  function StartNow(s: System, o: LoopOutcome): System {
    if !o.needsTask then s.(waiting := true)
    else if o.created && s.task == NoTask then s.(task := Fresh, waiting := true)
    else EnterStopping(s.(waiting := false))
  }

  function DispatchMode(s: System, o: LoopOutcome): System {
    match s.mode
    case Starting =>
      if !s.waiting then StartNow(s, o)
      else if o.outputRunning then s.(mode := Running, waiting := false)
      else if o.timedOut then EnterStopping(s.(waiting := false))
      else s
    case Running => if o.outputStopped then EnterStopping(s) else s
    case Stopping =>
      if o.outputStopped && s.task == NoTask then s.(waiting := false, mode := Stopped) else s
    case Stopped => s
  }

  function RunLoop(s: System, o: LoopOutcome): System {
    match s.pc
    case Outside => s.(pc := Commanding(s.bits))
    case Commanding(snap) => Commands(s, snap).(pc := Reread)
    case Reread => s.(pc := ClearStarting(s.bits))
    case ClearStarting(snap) =>
      s.(bits := if snap.starting then s.bits.(starting := false) else s.bits, pc := CheckNoMem(snap))
    case CheckNoMem(snap) => OnError(s, snap.noMem, s.bits.(noMem := false), CheckNotSupported(snap))
    case CheckNotSupported(snap) => OnError(s, snap.notSupported, s.bits.(notSupported := false), CheckFail(snap))
    case CheckFail(snap) => OnError(s, snap.fail, s.bits.(fail := false), ClearRunning(snap))
    case ClearRunning(snap) =>
      s.(bits := if snap.running then s.bits.(running := false) else s.bits, pc := ClearStopping(snap))
    case ClearStopping(snap) =>
      s.(bits := if snap.stopping then s.bits.(stopping := false) else s.bits, pc := CheckStopped(snap))
    case CheckStopped(snap) => if snap.stopped then s.(task := NoTask, pc := ClearAll) else s.(pc := Dispatch)
    case ClearAll => s.(bits := NO_BITS, pc := Dispatch)
    case Dispatch => DispatchMode(s, o).(pc := Outside)
  }

  // ---------------------------------------------------------------- the task

  function RunTask(s: System, setup: Setup, work: Work): System {
    match s.task
    case NoTask => s
    case Fresh => s.(task := SettingUp, bits := s.bits.(starting := true))
    case SettingUp =>
      (match setup
       case SetupOk => s.(task := Looping, bits := s.bits.(running := true))
       case SetupNoMem => s.(task := Winding, bits := s.bits.(noMem := true))
       case SetupNotSupported => s.(task := Winding, bits := s.bits.(notSupported := true))
       case SetupOther => s.(task := Winding))
    case Looping => s.(task := if s.bits.taskStop then Winding else Resampling)
    case Resampling =>
      (match work
       case Again => s.(task := Looping)
       case Finished => s.(task := Winding)
       case WorkFailed => s.(task := Winding, bits := s.bits.(fail := true)))
    case Winding => s.(task := Closing, bits := s.bits.(stopping := true))
    case Closing => s.(task := Suspended, bits := s.bits.(stopped := true))
    case Suspended => s
  }

  function Raised(b: Bits, c: Command): Bits {
    match c
    case Start => b.(cmdStart := true)
    case Stop => b.(cmdStop := true)
    case Finish => b.(cmdFinish := true)
  }

  function Next(s: System, step: Step): System {
    match step
    case LoopStep(o) => RunLoop(s, o)
    case TaskStep(setup, work) => RunTask(s, setup, work)
    case Send(c) => s.(bits := Raised(s.bits, c))
  }

  function Run(s: System, steps: seq<Step>): System
    decreases |steps|
  {
    if steps == [] then s else Run(Next(s, steps[0]), steps[1..])
  }

  // ---------------------------------------------------------------- the invariant

  /** A bit only the task sets. */
  predicate TaskBit(b: Bits) {
    b.starting || b.running || b.stopping || b.stopped || b.noMem || b.notSupported || b.fail
  }

  /** The snapshot the current stage still has to work through. */
  function Snapshot(pc: LoopPc): Bits {
    match pc
    case ClearStarting(snap) => snap
    case CheckNoMem(snap) => snap
    case CheckNotSupported(snap) => snap
    case CheckFail(snap) => snap
    case ClearRunning(snap) => snap
    case ClearStopping(snap) => snap
    case CheckStopped(snap) => snap
    case _ => NO_BITS
  }

  predicate Inv(s: System) {
    && (s.mode == Stopped ==> s.task == NoTask && !s.waiting)
    && (s.mode == Starting && !s.waiting ==> s.task == NoTask)
    && (s.pc == ClearAll ==> s.task == NoTask)
    && (s.pc != ClearAll && (s.bits.taskStop || TaskBit(s.bits) || TaskBit(Snapshot(s.pc))) ==> s.task != NoTask)
    && (s.pc != ClearAll ==> (s.bits.stopped <==> s.task == Suspended))
    && (Snapshot(s.pc).stopped ==> s.task == Suspended)
    && (s.mode == Stopping && s.task != NoTask ==> s.bits.taskStop)
  }

  lemma CommandKeeps(s: System, o: LoopOutcome)
    requires Inv(s) && s.pc.Commanding?
    ensures Inv(RunLoop(s, o))
  {
    var snap := s.pc.snap;
    if snap.cmdStop {
      if s.mode == Running || s.mode == Starting {
        if s.task != NoTask {
        }
      }
    } else if snap.cmdFinish {
    } else if snap.cmdStart {
    }
  }

  lemma NoMemKeeps(s: System, o: LoopOutcome)
    requires Inv(s) && s.pc.CheckNoMem?
    ensures Inv(RunLoop(s, o))
  {
    if s.pc.snap.noMem {
      if s.task == NoTask {
      }
    }
  }

  lemma NotSupportedKeeps(s: System, o: LoopOutcome)
    requires Inv(s) && s.pc.CheckNotSupported?
    ensures Inv(RunLoop(s, o))
  {
    if s.pc.snap.notSupported {
      if s.task == NoTask {
      }
    }
  }

  lemma FailKeeps(s: System, o: LoopOutcome)
    requires Inv(s) && s.pc.CheckFail?
    ensures Inv(RunLoop(s, o))
  {
    if s.pc.snap.fail {
      if s.task == NoTask {
      }
    }
  }

  lemma DispatchKeeps(s: System, o: LoopOutcome)
    requires Inv(s) && s.pc == Dispatch
    ensures Inv(RunLoop(s, o))
  {
    match s.mode
    case Starting =>
      if !s.waiting {
        if !o.needsTask {
        } else if o.created {
        }
      } else if o.outputRunning {
      } else if o.timedOut {
        if s.task != NoTask {
        }
      }
    case Running =>
      if o.outputStopped && s.task != NoTask {
      }
    case Stopping =>
    case Stopped =>
  }

  lemma LoopKeeps(s: System, o: LoopOutcome)
    requires Inv(s)
    ensures Inv(RunLoop(s, o))
  {
    if s.pc.Commanding? {
      CommandKeeps(s, o);
    } else if s.pc.CheckNoMem? {
      NoMemKeeps(s, o);
    } else if s.pc.CheckNotSupported? {
      NotSupportedKeeps(s, o);
    } else if s.pc.CheckFail? {
      FailKeeps(s, o);
    } else if s.pc == Dispatch {
      DispatchKeeps(s, o);
    } else {
      StageKeeps(s, o);
    }
  }

  /** The stages that only take a snapshot or clear bits named by it. */
  lemma StageKeeps(s: System, o: LoopOutcome)
    requires Inv(s) && !s.pc.Commanding? && !s.pc.CheckNoMem? && !s.pc.CheckNotSupported? && !s.pc.CheckFail?
    requires s.pc != Dispatch
    ensures Inv(RunLoop(s, o))
  {
    match s.pc
    case Outside =>
    case Reread =>
    case ClearStarting(snap) =>
    case ClearRunning(snap) =>
    case ClearStopping(snap) =>
    case CheckStopped(snap) =>
    case ClearAll =>
  }

  lemma TaskKeeps(s: System, setup: Setup, work: Work)
    requires Inv(s)
    ensures Inv(RunTask(s, setup, work))
  {
    match s.task
    case NoTask =>
    case Fresh =>
    case SettingUp =>
      match setup {
        case SetupOk =>
        case SetupNoMem =>
        case SetupNotSupported =>
        case SetupOther =>
      }
    case Looping =>
    case Resampling =>
      if work == Again {
      } else if work == Finished {
      }
    case Winding =>
    case Closing =>
    case Suspended =>
  }

  lemma StepKeeps(s: System, step: Step)
    requires Inv(s)
    ensures Inv(Next(s, step))
  {
    match step
    case LoopStep(o) => LoopKeeps(s, o);
    case TaskStep(setup, work) => TaskKeeps(s, setup, work);
    case Send(c) =>
      match c {
        case Start =>
        case Stop =>
        case Finish =>
      }
  }

  lemma {:induction false} RunKeeps(s: System, steps: seq<Step>)
    requires Inv(s)
    ensures Inv(Run(s, steps))
    decreases |steps|
  {
    if steps == [] {
    } else {
      StepKeeps(s, steps[0]);
      RunKeeps(Next(s, steps[0]), steps[1..]);
    }
  }

  // ---------------------------------------------------------------- theorems

  /** Over every interleaving: a stopped speaker has no task; a pending stop order or report
      belongs to a task that exists; and a task is created only when none exists and nothing
      addressed to, or left by, an earlier one is pending. */
  lemma TaskLifecycle(steps: seq<Step>, o: LoopOutcome)
    ensures var s := Run(INITIAL, steps);
            && (s.mode == Stopped ==> s.task == NoTask)
            && ((s.bits.taskStop || TaskBit(s.bits)) && s.pc != ClearAll ==> s.task != NoTask)
            && (s.pc == Dispatch && s.mode == Starting && !s.waiting ==> s.task == NoTask)
            && (s.task != Fresh && RunLoop(s, o).task == Fresh ==>
                  s.task == NoTask && !s.bits.taskStop && !TaskBit(s.bits) && s.mode == Starting)
  {
    RunKeeps(INITIAL, steps);
    var s := Run(INITIAL, steps);
    if s.task != Fresh && RunLoop(s, o).task == Fresh {
      OnlyDispatchCreates(s, o);
    }
  }

  lemma OnlyDispatchCreates(s: System, o: LoopOutcome)
    requires s.task != Fresh && RunLoop(s, o).task == Fresh
    ensures s.pc == Dispatch && s.task == NoTask && s.mode == Starting
  {
    match s.pc
    case Commanding(snap) =>
    case Dispatch =>
    case _ =>
  }

  /** How far the task is from being suspended, once told to stop. */
  function Distance(t: TaskPc): nat {
    match t
    case Fresh => 6
    case SettingUp => 5
    case Resampling => 4
    case Looping => 3
    case Winding => 2
    case Closing => 1
    case Suspended => 0
    case NoTask => 0
  }

  /** A speaker that is stopping never waits for a task that has not been told: the order is
      pending, every step of the task then brings it nearer to its end, and when it is
      suspended its report is there to be seen. */
  lemma StopIsHonoured(steps: seq<Step>, setup: Setup, work: Work)
    ensures var s := Run(INITIAL, steps);
            s.mode == Stopping && s.task != NoTask ==>
              && s.bits.taskStop
              && (s.task == Suspended <==> s.bits.stopped)
              && (s.task != Suspended ==> Distance(RunTask(s, setup, work).task) < Distance(s.task))
  {
    RunKeeps(INITIAL, steps);
  }

  function Remaining(pc: LoopPc): nat {
    match pc
    case Outside => 0
    case Dispatch => 1
    case ClearAll => 2
    case CheckStopped(_) => 3
    case ClearStopping(_) => 4
    case ClearRunning(_) => 5
    case CheckFail(_) => 6
    case CheckNotSupported(_) => 7
    case CheckNoMem(_) => 8
    case ClearStarting(_) => 9
    case Reread => 10
    case Commanding(_) => 11
  }

  lemma StagesEnd(s: System, o: LoopOutcome)
    requires s.pc != Outside
    ensures Remaining(RunLoop(s, o).pc) < Remaining(s.pc)
  {
    match s.pc
    case Commanding(snap) =>
    case Dispatch =>
    case _ =>
  }

  /** The rest of a pass of `loop()` that nothing interrupts. */
  function FinishPass(s: System, o: LoopOutcome): System
    decreases Remaining(s.pc)
  {
    if s.pc == Outside then s
    else
      StagesEnd(s, o);
      FinishPass(RunLoop(s, o), o)
  }

  /** The pass will find the report of a suspended task. */
  predicate WillSee(s: System) {
    s.task == NoTask || (s.task == Suspended && (s.pc.Commanding? || s.pc == Reread || Snapshot(s.pc).stopped))
  }

  lemma StoppingStage(s: System, o: LoopOutcome)
    requires Inv(s) && s.mode == Stopping && WillSee(s) && s.pc != Outside && s.pc != Dispatch
    ensures var t := RunLoop(s, o); Inv(t) && t.mode == Stopping && WillSee(t) && t.pc != Outside
  {
    LoopKeeps(s, o);
    match s.pc
    case Commanding(snap) =>
    case Reread =>
    case CheckStopped(snap) =>
    case _ =>
  }

  /** Once the task is gone or suspended and the output has stopped, one pass that nothing
      interrupts completes the stop. */
  lemma {:induction false} StopCompletes(s: System, o: LoopOutcome)
    requires Inv(s) && s.mode == Stopping && WillSee(s) && s.pc != Outside && o.outputStopped
    ensures FinishPass(s, o).mode == Stopped && FinishPass(s, o).task == NoTask
    decreases Remaining(s.pc)
  {
    StagesEnd(s, o);
    if s.pc == Dispatch {
      assert s.task == NoTask;
      assert FinishPass(RunLoop(s, o), o) == RunLoop(s, o);
    } else {
      StoppingStage(s, o);
      StopCompletes(RunLoop(s, o), o);
    }
  }

  predicate SameCommands(a: Bits, b: Bits) {
    a.cmdStop == b.cmdStop && a.cmdFinish == b.cmdFinish && a.cmdStart == b.cmdStart
  }

  lemma DispatchKeepsCommands(s: System, o: LoopOutcome)
    ensures SameCommands(DispatchMode(s, o).bits, s.bits)
  {
    match s.mode
    case Starting =>
      if !s.waiting {
        if !o.needsTask {
        } else if o.created && s.task == NoTask {
        }
      } else if o.outputRunning {
      } else if o.timedOut {
      }
    case Running =>
    case Stopping =>
    case Stopped =>
  }

  lemma OnErrorKeepsCommands(s: System, hit: bool, acknowledged: Bits, next: LoopPc)
    requires SameCommands(acknowledged, s.bits)
    ensures SameCommands(OnError(s, hit, acknowledged, next).bits, s.bits)
  {
    if hit && s.task != NoTask {
    }
  }

  lemma ErrorStageKeepsCommands(s: System, o: LoopOutcome)
    requires s.pc.CheckNoMem? || s.pc.CheckNotSupported? || s.pc.CheckFail?
    ensures SameCommands(RunLoop(s, o).bits, s.bits)
  {
    var snap := s.pc.snap;
    if s.pc.CheckNoMem? {
      OnErrorKeepsCommands(s, snap.noMem, s.bits.(noMem := false), CheckNotSupported(snap));
      assert RunLoop(s, o) == OnError(s, snap.noMem, s.bits.(noMem := false), CheckNotSupported(snap));
    } else if s.pc.CheckNotSupported? {
      OnErrorKeepsCommands(s, snap.notSupported, s.bits.(notSupported := false), CheckFail(snap));
      assert RunLoop(s, o) == OnError(s, snap.notSupported, s.bits.(notSupported := false), CheckFail(snap));
    } else {
      OnErrorKeepsCommands(s, snap.fail, s.bits.(fail := false), ClearRunning(snap));
      assert RunLoop(s, o) == OnError(s, snap.fail, s.bits.(fail := false), ClearRunning(snap));
    }
  }

  lemma PlainStageKeepsCommands(s: System, o: LoopOutcome)
    requires s.pc == Reread || s.pc.ClearStarting? || s.pc.ClearRunning? || s.pc.ClearStopping? || s.pc.CheckStopped?
    ensures SameCommands(RunLoop(s, o).bits, s.bits)
  {
    match s.pc
    case Reread =>
    case ClearStarting(snap) =>
      if snap.starting {
      }
    case ClearRunning(snap) =>
      if snap.running {
      }
    case ClearStopping(snap) =>
      if snap.stopping {
      }
    case CheckStopped(snap) =>
      if snap.stopped {
      }
  }

  /** Once the commands of a pass are processed, the pending ones are touched by one stage
      only, which drops them all. */
  lemma StageKeepsCommands(s: System, o: LoopOutcome)
    requires s.pc != Outside && !s.pc.Commanding?
    ensures SameCommands(RunLoop(s, o).bits, if s.pc == ClearAll then NO_BITS else s.bits)
    ensures !RunLoop(s, o).pc.Commanding?
  {
    CommandsComeFirst(s, o);
    if s.pc.CheckNoMem? || s.pc.CheckNotSupported? || s.pc.CheckFail? {
      ErrorStageKeepsCommands(s, o);
    } else if s.pc == Dispatch {
      DispatchKeepsCommands(s, o);
    } else if s.pc != ClearAll {
      PlainStageKeepsCommands(s, o);
    }
  }

  /** The rest of the pass is going to clear the whole event group. */
  predicate WillClear(s: System) {
    s.pc == ClearAll || (s.pc == Reread && s.bits.stopped) || Snapshot(s.pc).stopped
  }

  lemma StageKeepsWillClear(s: System, o: LoopOutcome)
    requires s.pc != Outside && !s.pc.Commanding? && s.pc != ClearAll
    ensures WillClear(RunLoop(s, o)) <==> WillClear(s)
  {
    match s.pc
    case Reread =>
    case CheckStopped(snap) =>
    case Dispatch =>
    case _ =>
  }

  lemma CommandsComeFirst(s: System, o: LoopOutcome)
    requires s.pc != Outside
    ensures !RunLoop(s, o).pc.Commanding?
  {
    match s.pc
    case Commanding(snap) =>
    case Dispatch =>
    case _ =>
  }

  /** Commands pending at any point after that outlive the pass if it does not find the report
      of an ended task, and are all dropped if it does. */
  lemma {:induction false} CommandsOutlivePass(s: System, o: LoopOutcome)
    requires s.pc != Outside && !s.pc.Commanding?
    ensures SameCommands(FinishPass(s, o).bits, if WillClear(s) then NO_BITS else s.bits)
    decreases Remaining(s.pc)
  {
    StagesEnd(s, o);
    StageKeepsCommands(s, o);
    var t := RunLoop(s, o);
    if s.pc == ClearAll {
      DispatchKeepsCommands(t, o);
      assert FinishPass(t, o) == RunLoop(t, o);
    } else {
      StageKeepsWillClear(s, o);
      if t.pc == Outside {
        assert FinishPass(t, o) == t;
      } else {
        CommandsOutlivePass(t, o);
      }
    }
  }

  /** The guard that decides is the one the source tests: a start pending when the bits are
      read again outlives the pass if and only if no task has reported its end. */
  lemma StartOutlivesPass(s: System, o: LoopOutcome)
    requires s.pc == Reread && s.bits.cmdStart
    ensures FinishPass(s, o).bits.cmdStart <==> !s.bits.stopped
  {
    CommandsOutlivePass(s, o);
  }

  /** One whole pass that nothing interrupts. */
  function Pass(s: System, o: LoopOutcome): System
    requires s.pc == Outside
  {
    FinishPass(RunLoop(s, o), o)
  }

  /** The system once the commands of a pass are processed. */
  function Commanded(s: System): System {
    Commands(s.(pc := Commanding(s.bits)), s.bits).(pc := Reread)
  }

  lemma PassIsCommanded(s: System, o: LoopOutcome)
    requires s.pc == Outside
    ensures Pass(s, o) == FinishPass(Commanded(s), o)
  {
    var t := RunLoop(s, o);
    assert t == s.(pc := Commanding(s.bits));
    StagesEnd(t, o);
    assert RunLoop(t, o) == Commanded(s);
  }

  /** A stopping speaker leaves every command pending. */
  lemma StoppingDefersCommands(s: System)
    requires s.mode == Stopping
    ensures Commanded(s) == s.(pc := Reread)
  {
    if s.bits.cmdStop {
    } else if s.bits.cmdFinish {
    } else if s.bits.cmdStart {
    }
  }

  // ---------------------------------------------------------------- quiet passes

  lemma QuietHead(s: System, o: LoopOutcome)
    requires s.pc == Reread && !TaskBit(s.bits)
    ensures FinishPass(s, o) == FinishPass(s.(pc := CheckFail(s.bits)), o)
  {
    var snap := s.bits;
    var a, b := s.(pc := ClearStarting(snap)), s.(pc := CheckNoMem(snap));
    var c := s.(pc := CheckNotSupported(snap));
    assert RunLoop(s, o) == a && RunLoop(a, o) == b && RunLoop(b, o) == c;
    assert RunLoop(c, o) == s.(pc := CheckFail(snap));
    assert FinishPass(s, o) == FinishPass(a, o);
    assert FinishPass(a, o) == FinishPass(b, o);
    assert FinishPass(b, o) == FinishPass(c, o);
  }

  lemma QuietTail(s: System, o: LoopOutcome)
    requires s.pc == CheckFail(s.bits) && !TaskBit(s.bits)
    ensures FinishPass(s, o) == FinishPass(s.(pc := Dispatch), o)
  {
    var snap := s.bits;
    var a, b := s.(pc := ClearRunning(snap)), s.(pc := ClearStopping(snap));
    var c := s.(pc := CheckStopped(snap));
    assert RunLoop(s, o) == a && RunLoop(a, o) == b && RunLoop(b, o) == c;
    assert RunLoop(c, o) == s.(pc := Dispatch);
    assert FinishPass(s, o) == FinishPass(a, o);
    assert FinishPass(a, o) == FinishPass(b, o);
    assert FinishPass(b, o) == FinishPass(c, o);
  }

  /** Without a report of the task only commands and the mode switch matter. */
  lemma QuietPass(s: System, o: LoopOutcome)
    requires s.pc == Reread && !TaskBit(s.bits)
    ensures FinishPass(s, o) == DispatchMode(s.(pc := Dispatch), o).(pc := Outside)
  {
    QuietHead(s, o);
    QuietTail(s.(pc := CheckFail(s.bits)), o);
    var d := s.(pc := Dispatch);
    assert RunLoop(d, o) == DispatchMode(d, o).(pc := Outside);
    assert FinishPass(d, o) == RunLoop(d, o);
  }

  /** A start found by a stopped speaker is taken at once: the task is created if one is
      needed, and only a failed creation turns the start into a stop. */
  lemma StoppedTakesStart(s: System, o: LoopOutcome)
    requires Inv(s) && s.pc == Outside && s.mode == Stopped
    requires s.bits.cmdStart && !s.bits.cmdStop && !s.bits.cmdFinish
    ensures Pass(s, o) == System(
              if o.needsTask && !o.created then Stopping else Starting, !o.needsTask || o.created,
              if o.needsTask && o.created then Fresh else NoTask, s.bits.(cmdStart := false), Outside)
  {
    PassIsCommanded(s, o);
    var t := s.(bits := s.bits.(cmdStart := false), mode := Starting, pc := Reread);
    assert Commanded(s) == t;
    QuietPass(t, o);
    if !o.needsTask {
    } else if o.created {
    }
  }

  lemma StoppedStaysStopped(s: System, o: LoopOutcome)
    requires Inv(s) && s.pc == Outside && s.mode == Stopped
    requires !s.bits.cmdStart && !s.bits.cmdStop && !s.bits.cmdFinish
    ensures Pass(s, o) == s
  {
    PassIsCommanded(s, o);
    QuietPass(s.(pc := Reread), o);
  }

  // ---------------------------------------------------------------- what a pass does

  function Cleared(b: Bits): Bits {
    b.(cmdStop := false, cmdFinish := false, cmdStart := false)
  }

  /** Stop comes first: a starting or running speaker drops all commands, stops waiting and
      enters stopping, telling its task; a stopped one only drops them; a stopping one leaves
      them for later. */
  lemma StopCommanded(s: System)
    requires s.bits.cmdStop
    ensures s.mode == Running || s.mode == Starting ==>
              Commanded(s) == System(Stopping, false, s.task,
                                     Cleared(s.bits).(taskStop := s.bits.taskStop || s.task != NoTask), Reread)
    ensures s.mode == Stopped ==> Commanded(s) == s.(bits := Cleared(s.bits), pc := Reread)
    ensures s.mode == Stopping ==> Commanded(s) == s.(pc := Reread)
  {
    var t := s.(pc := Commanding(s.bits));
    if s.mode == Running || s.mode == Starting {
      var v := t.(bits := ClearCommands(s.bits), waiting := false);
      assert Commands(t, s.bits) == EnterStopping(v);
      assert ClearCommands(s.bits) == Cleared(s.bits);
      if s.task == NoTask {
      }
    } else if s.mode == Stopped {
      assert Commands(t, s.bits) == t.(bits := ClearCommands(s.bits));
    }
  }

  /** Then finish: a running or stopped speaker drops it, leaving a start for the next pass. */
  lemma FinishCommanded(s: System)
    requires !s.bits.cmdStop && s.bits.cmdFinish
    ensures Commanded(s) == if s.mode == Running || s.mode == Stopped then s.(bits := s.bits.(cmdFinish := false), pc := Reread)
                            else s.(pc := Reread)
  {
  }

  /** Then start: a stopped speaker takes it, a running one drops it, the others leave it. */
  lemma StartCommanded(s: System)
    requires !s.bits.cmdStop && !s.bits.cmdFinish
    ensures s.bits.cmdStart && s.mode == Stopped ==>
              Commanded(s) == s.(mode := Starting, bits := s.bits.(cmdStart := false), pc := Reread)
    ensures s.bits.cmdStart && s.mode == Running ==> Commanded(s) == s.(bits := s.bits.(cmdStart := false), pc := Reread)
    ensures !s.bits.cmdStart || s.mode == Starting || s.mode == Stopping ==> Commanded(s) == s.(pc := Reread)
  {
    if s.bits.cmdStart {
      if s.mode == Stopped {
      } else if s.mode == Running {
      }
    }
  }

  predicate SameReports(a: Bits, b: Bits) {
    a.stopped == b.stopped && a.noMem == b.noMem && a.notSupported == b.notSupported && a.fail == b.fail
  }

  lemma EnterStoppingKeepsReports(s: System)
    ensures SameReports(EnterStopping(s).bits, s.bits)
  {
  }

  lemma CommandsKeepReports(s: System, snap: Bits)
    ensures SameReports(Commands(s, snap).bits, s.bits)
  {
    if snap.cmdStop {
      if s.mode == Running || s.mode == Starting {
        var v := s.(bits := ClearCommands(s.bits), waiting := false);
        assert Commands(s, snap) == EnterStopping(v);
        EnterStoppingKeepsReports(v);
      } else if s.mode == Stopped {
        assert Commands(s, snap) == s.(bits := ClearCommands(s.bits));
      }
    } else if snap.cmdFinish {
      if s.mode == Running || s.mode == Stopped {
        assert Commands(s, snap) == s.(bits := s.bits.(cmdFinish := false));
      }
    } else if snap.cmdStart {
      if s.mode == Stopped {
        assert Commands(s, snap) == s.(bits := s.bits.(cmdStart := false), mode := Starting);
      } else if s.mode == Running {
        assert Commands(s, snap) == s.(bits := s.bits.(cmdStart := false));
      }
    }
  }

  /** Over the whole pass: what is pending after it is what processing left, unless the report
      of an ended task has everything dropped. */
  lemma CommandsAfterPass(s: System, o: LoopOutcome)
    requires s.pc == Outside
    ensures SameCommands(Pass(s, o).bits, if s.bits.stopped then NO_BITS else Commanded(s).bits)
  {
    PassIsCommanded(s, o);
    CommandsKeepReports(s.(pc := Commanding(s.bits)), s.bits);
    CommandsOutlivePass(Commanded(s), o);
  }

  lemma {:induction false} StaysStopping(s: System, o: LoopOutcome)
    requires Inv(s) && s.mode == Stopping && s.pc != Outside
    ensures var u := FinishPass(s, o);
            && Inv(u) && u.pc == Outside && (u.mode == Stopping || u.mode == Stopped)
            && (u.mode == Stopped ==> o.outputStopped)
    decreases Remaining(s.pc)
  {
    StagesEnd(s, o);
    LoopKeeps(s, o);
    var t := RunLoop(s, o);
    if s.pc == Dispatch {
      assert FinishPass(t, o) == t;
    } else {
      StoppingStageMode(s, o);
      StaysStopping(t, o);
    }
  }

  lemma StoppingStageMode(s: System, o: LoopOutcome)
    requires s.mode == Stopping && s.pc != Dispatch && s.pc != Outside
    ensures RunLoop(s, o).mode == Stopping && RunLoop(s, o).pc != Outside
  {
    match s.pc
    case Commanding(snap) => StoppingIgnores(s, snap);
    case CheckNoMem(snap) => OnErrorKeepsTask(s, snap.noMem, s.bits.(noMem := false), CheckNotSupported(snap));
    case CheckNotSupported(snap) => OnErrorKeepsTask(s, snap.notSupported, s.bits.(notSupported := false), CheckFail(snap));
    case CheckFail(snap) => OnErrorKeepsTask(s, snap.fail, s.bits.(fail := false), ClearRunning(snap));
    case _ =>
  }

  /** A stop is obeyed: whatever the task has reported meanwhile, after the pass that finds it
      a starting or running speaker is stopping or stopped, no command is pending, and a task
      that still exists has been told. */
  lemma StopIsObeyed(s: System, o: LoopOutcome)
    requires Inv(s) && s.pc == Outside && (s.mode == Running || s.mode == Starting) && s.bits.cmdStop
    ensures var u := Pass(s, o);
            && (u.mode == Stopping || u.mode == Stopped) && !u.waiting
            && !u.bits.cmdStop && !u.bits.cmdFinish && !u.bits.cmdStart
            && (u.task != NoTask ==> u.bits.taskStop)
  {
    PassIsCommanded(s, o);
    CommandsAfterPass(s, o);
    StopCommanded(s);
    LoopKeeps(s, o);
    LoopKeeps(s.(pc := Commanding(s.bits)), o);
    var t := Commanded(s);
    assert RunLoop(s.(pc := Commanding(s.bits)), o) == t;
    StaysStopping(t, o);
    NotWaiting(t, o);
  }

  lemma {:induction false} NotWaiting(s: System, o: LoopOutcome)
    requires s.mode == Stopping && s.pc != Outside && !s.waiting
    ensures !FinishPass(s, o).waiting
    decreases Remaining(s.pc)
  {
    StagesEnd(s, o);
    var t := RunLoop(s, o);
    if s.pc == Dispatch {
      assert FinishPass(t, o) == t;
    } else {
      StoppingStageMode(s, o);
      StageKeepsWaiting(s, o);
      NotWaiting(t, o);
    }
  }

  lemma StageKeepsWaiting(s: System, o: LoopOutcome)
    requires s.mode == Stopping && s.pc != Dispatch && !s.waiting
    ensures !RunLoop(s, o).waiting
  {
    match s.pc
    case Commanding(snap) => StoppingIgnores(s, snap);
    case CheckNoMem(snap) =>
    case CheckNotSupported(snap) =>
    case CheckFail(snap) =>
    case _ =>
  }

  /** The pass still has an error report of the task to look at. */
  predicate WillFail(s: System) {
    match s.pc
    case Reread => s.bits.noMem || s.bits.notSupported || s.bits.fail
    case ClearStarting(snap) => snap.noMem || snap.notSupported || snap.fail
    case CheckNoMem(snap) => snap.noMem || snap.notSupported || snap.fail
    case CheckNotSupported(snap) => snap.notSupported || snap.fail
    case CheckFail(snap) => snap.fail
    case _ => false
  }

  lemma FailingStage(s: System, o: LoopOutcome)
    requires WillFail(s)
    ensures var t := RunLoop(s, o); t.pc != Outside && (t.mode == Stopping || WillFail(t))
  {
    match s.pc
    case Reread =>
    case ClearStarting(snap) =>
    case CheckNoMem(snap) =>
      if snap.noMem && s.task != NoTask {
      }
    case CheckNotSupported(snap) =>
      if snap.notSupported && s.task != NoTask {
      }
    case CheckFail(snap) =>
      if s.task != NoTask {
      }
  }

  lemma {:induction false} FailingPass(s: System, o: LoopOutcome)
    requires Inv(s) && WillFail(s)
    ensures var u := FinishPass(s, o); Inv(u) && (u.mode == Stopping || u.mode == Stopped)
    decreases Remaining(s.pc)
  {
    StagesEnd(s, o);
    LoopKeeps(s, o);
    FailingStage(s, o);
    var t := RunLoop(s, o);
    if t.mode == Stopping {
      StaysStopping(t, o);
    } else {
      FailingPass(t, o);
    }
  }

  /** An error report of the task is answered by stopping, whatever the mode was. */
  lemma ErrorStopsSpeaker(s: System, o: LoopOutcome)
    requires Inv(s) && s.pc == Outside && (s.bits.noMem || s.bits.notSupported || s.bits.fail)
    ensures var u := Pass(s, o);
            (u.mode == Stopping || u.mode == Stopped) && (u.mode == Stopping && u.task != NoTask ==> u.bits.taskStop)
  {
    PassIsCommanded(s, o);
    LoopKeeps(s, o);
    var t := RunLoop(s, o);
    LoopKeeps(t, o);
    assert RunLoop(t, o) == Commanded(s);
    CommandsKeepReports(s.(pc := Commanding(s.bits)), s.bits);
    FailingPass(Commanded(s), o);
  }

  /** The reports still pending are those the pass has a stage for yet. */
  predicate Acknowledging(s: System) {
    var b, snap := s.bits, Snapshot(s.pc);
    var later := Remaining(s.pc);
    s.pc == Reread || s.pc == ClearAll ||
    (&& (b.starting ==> snap.starting && later >= 9) && (b.noMem ==> snap.noMem && later >= 8)
     && (b.notSupported ==> snap.notSupported && later >= 7) && (b.fail ==> snap.fail && later >= 6)
     && (b.running ==> snap.running && later >= 5) && (b.stopping ==> snap.stopping && later >= 4)
     && (b.stopped ==> snap.stopped && later >= 3))
  }

  /** An error report changes no report but the one it acknowledges. */
  predicate OnlyTaskStop(a: Bits, b: Bits) {
    a == b || a == b.(taskStop := true)
  }

  lemma OnErrorBits(s: System, hit: bool, acknowledged: Bits, next: LoopPc)
    ensures var t := OnError(s, hit, acknowledged, next);
            t.pc == next && OnlyTaskStop(t.bits, if hit then acknowledged else s.bits)
  {
    if hit && s.task != NoTask {
    }
  }

  lemma AcknowledgeNoMem(s: System, o: LoopOutcome)
    requires Acknowledging(s) && s.pc.CheckNoMem?
    ensures Acknowledging(RunLoop(s, o))
  {
    var snap := s.pc.snap;
    OnErrorBits(s, snap.noMem, s.bits.(noMem := false), CheckNotSupported(snap));
  }

  lemma AcknowledgeNotSupported(s: System, o: LoopOutcome)
    requires Acknowledging(s) && s.pc.CheckNotSupported?
    ensures Acknowledging(RunLoop(s, o))
  {
    var snap := s.pc.snap;
    OnErrorBits(s, snap.notSupported, s.bits.(notSupported := false), CheckFail(snap));
  }

  lemma AcknowledgeFail(s: System, o: LoopOutcome)
    requires Acknowledging(s) && s.pc.CheckFail?
    ensures Acknowledging(RunLoop(s, o))
  {
    var snap := s.pc.snap;
    OnErrorBits(s, snap.fail, s.bits.(fail := false), ClearRunning(snap));
  }

  lemma AcknowledgePlain(s: System, o: LoopOutcome)
    requires Acknowledging(s) && !s.pc.CheckNoMem? && !s.pc.CheckNotSupported? && !s.pc.CheckFail?
    requires s.pc != Outside && !s.pc.Commanding? && s.pc != Dispatch
    ensures Acknowledging(RunLoop(s, o))
  {
    match s.pc
    case Reread =>
    case ClearStarting(snap) =>
      if snap.starting {
      }
    case ClearRunning(snap) =>
      if snap.running {
      }
    case ClearStopping(snap) =>
      if snap.stopping {
      }
    case CheckStopped(snap) =>
      if snap.stopped {
      }
    case ClearAll =>
  }

  lemma DispatchReportsNothing(s: System, o: LoopOutcome)
    requires !TaskBit(s.bits)
    ensures !TaskBit(DispatchMode(s, o).bits)
  {
    match s.mode
    case Starting =>
      if !s.waiting {
        if !o.needsTask {
        } else if o.created && s.task == NoTask {
        }
      } else if o.outputRunning {
      } else if o.timedOut {
      }
    case Running =>
    case Stopping =>
    case Stopped =>
  }

  /** A pass that nothing interrupts acknowledges every report of the task it finds: none is
      pending after it. */
  lemma {:induction false} ReportsAreAcknowledged(s: System, o: LoopOutcome)
    requires Acknowledging(s) && s.pc != Outside && !s.pc.Commanding?
    ensures !TaskBit(FinishPass(s, o).bits)
    decreases Remaining(s.pc)
  {
    StagesEnd(s, o);
    CommandsComeFirst(s, o);
    var t := RunLoop(s, o);
    if s.pc == Dispatch {
      DispatchReportsNothing(s, o);
      assert FinishPass(t, o) == t;
    } else {
      if s.pc.CheckNoMem? {
        AcknowledgeNoMem(s, o);
      } else if s.pc.CheckNotSupported? {
        AcknowledgeNotSupported(s, o);
      } else if s.pc.CheckFail? {
        AcknowledgeFail(s, o);
      } else {
        AcknowledgePlain(s, o);
      }
      StageGoesOn(s, o);
      ReportsAreAcknowledged(t, o);
    }
  }

  lemma StageGoesOn(s: System, o: LoopOutcome)
    requires s.pc != Outside && s.pc != Dispatch
    ensures RunLoop(s, o).pc != Outside
  {
    match s.pc
    case CheckNoMem(snap) =>
    case CheckNotSupported(snap) =>
    case CheckFail(snap) =>
    case _ =>
  }

  lemma PassAcknowledges(s: System, o: LoopOutcome)
    requires s.pc == Outside
    ensures !TaskBit(Pass(s, o).bits) && (s.bits.stopped ==> Pass(s, o).task == NoTask || Pass(s, o).task == Fresh)
  {
    PassIsCommanded(s, o);
    CommandsKeepReports(s.(pc := Commanding(s.bits)), s.bits);
    ReportsAreAcknowledged(Commanded(s), o);
    if s.bits.stopped {
      EndedTaskIsDeleted(Commanded(s), o);
    }
  }

  /** And the report of an ended task has the task deleted, so that only a new one can exist. */
  lemma {:induction false} EndedTaskIsDeleted(s: System, o: LoopOutcome)
    requires s.pc != Outside && !s.pc.Commanding? && (WillClear(s) || s.pc == Dispatch)
    requires s.pc == ClearAll || s.pc == Dispatch ==> s.task == NoTask
    ensures FinishPass(s, o).task == NoTask || FinishPass(s, o).task == Fresh
    decreases Remaining(s.pc)
  {
    StagesEnd(s, o);
    CommandsComeFirst(s, o);
    var t := RunLoop(s, o);
    if s.pc == Dispatch {
      DispatchKeepsOrCreates(s, o);
      assert FinishPass(t, o) == t;
    } else {
      if s.pc != ClearAll {
        StageKeepsWillClear(s, o);
      }
      StageGoesOn(s, o);
      EndedTaskIsDeleted(t, o);
    }
  }

  lemma DispatchKeepsOrCreates(s: System, o: LoopOutcome)
    requires s.task == NoTask
    ensures DispatchMode(s, o).task == NoTask || DispatchMode(s, o).task == Fresh
  {
    match s.mode
    case Starting =>
      if !s.waiting {
        if !o.needsTask {
        } else if o.created {
        }
      } else if o.outputRunning {
      } else if o.timedOut {
      }
    case Running =>
    case Stopping =>
    case Stopped =>
  }

  /** A pass with nothing reported and nothing commanded follows the output: a waiting speaker
      runs once the output does and gives up when that takes too long, a running one stops
      with the output, and a stopping one is stopped once output and task are gone. */
  lemma PassFollowsOutput(s: System, o: LoopOutcome)
    requires s.pc == Outside && !TaskBit(s.bits) && SameCommands(s.bits, NO_BITS)
    ensures var u := Pass(s, o);
            var told := if s.task != NoTask then s.bits.(taskStop := true) else s.bits;
            match s.mode
            case Stopped => u == s
            case Starting =>
              if !s.waiting then
                && (!o.needsTask ==> u == s.(waiting := true))
                && (o.needsTask && o.created && s.task == NoTask ==> u == s.(waiting := true, task := Fresh))
                && (o.needsTask && !(o.created && s.task == NoTask) ==> u == s.(mode := Stopping, bits := told))
              else if o.outputRunning then u == s.(mode := Running, waiting := false)
              else if o.timedOut then u == s.(mode := Stopping, waiting := false, bits := told)
              else u == s
            case Running => u == if o.outputStopped then s.(mode := Stopping, bits := told) else s
            case Stopping => u == if o.outputStopped && s.task == NoTask then s.(mode := Stopped, waiting := false) else s
  {
    PassIsCommanded(s, o);
    var t := s.(pc := Reread);
    assert Commanded(s) == t;
    QuietPass(t, o);
    var d := s.(pc := Dispatch);
    match s.mode
    case Starting =>
      if !s.waiting {
        if !o.needsTask {
        } else if o.created && s.task == NoTask {
        } else {
          assert DispatchMode(d, o) == EnterStopping(d.(waiting := false));
        }
      } else if o.outputRunning {
      } else if o.timedOut {
        assert DispatchMode(d, o) == EnterStopping(d.(waiting := false));
      }
    case Running =>
    case Stopping =>
    case Stopped =>
  }

  /** A running speaker without a stop or a report: a finish, or else a start, is dropped by the
      pass that finds it, and the output alone decides whether it goes on. */
  lemma RunningPass(s: System, o: LoopOutcome)
    requires s.pc == Outside && s.mode == Running && !s.bits.cmdStop && !TaskBit(s.bits)
    ensures var u := Pass(s, o);
            && u.mode == (if o.outputStopped then Stopping else Running) && u.task == s.task
            && !u.bits.cmdStop && !u.bits.cmdFinish && u.bits.cmdStart == (s.bits.cmdStart && s.bits.cmdFinish)
            && (o.outputStopped && s.task != NoTask ==> u.bits.taskStop)
  {
    PassIsCommanded(s, o);
    var b := if s.bits.cmdFinish then s.bits.(cmdFinish := false) else s.bits.(cmdStart := false);
    if s.bits.cmdFinish {
      FinishCommanded(s);
    } else {
      StartCommanded(s);
    }
    var t := s.(bits := b, pc := Reread);
    assert Commanded(s) == t && !TaskBit(b);
    QuietPass(t, o);
  }

  /** The task's way: it reports that it is starting, then the outcome of its set-up under the
      code of that outcome, works until told to stop, finished or failed, and in every case
      ends by reporting stopping and then stopped. */
  lemma TaskReports(s: System, setup: Setup, work: Work)
    ensures var t := RunTask(s, setup, work);
            && t == s.(task := t.task, bits := t.bits)
            && (s.task == NoTask || s.task == Suspended ==> t == s)
            && (s.task == Fresh ==> t.task == SettingUp && t.bits == s.bits.(starting := true))
            && (s.task == SettingUp ==>
                  && t.task == (if setup == SetupOk then Looping else Winding)
                  && t.bits == (if setup == SetupOk then s.bits.(running := true)
                                else if setup == SetupNoMem then s.bits.(noMem := true)
                                else if setup == SetupNotSupported then s.bits.(notSupported := true)
                                else s.bits))
            && (s.task == Looping ==> t.task == (if s.bits.taskStop then Winding else Resampling) && t.bits == s.bits)
            && (s.task == Resampling ==>
                  && t.task == (if work == Again then Looping else Winding)
                  && t.bits == if work == WorkFailed then s.bits.(fail := true) else s.bits)
            && (s.task == Winding ==> t.task == Closing && t.bits == s.bits.(stopping := true))
            && (s.task == Closing ==> t.task == Suspended && t.bits == s.bits.(stopped := true))
  {
    match s.task
    case SettingUp =>
      match setup {
        case SetupOk =>
        case SetupNoMem =>
        case SetupNotSupported =>
        case SetupOther =>
      }
    case Resampling =>
      match work {
        case Again =>
        case Finished =>
        case WorkFailed =>
      }
    case _ =>
  }

  // ---------------------------------------------------------------- starts while stopping

  lemma {:induction false} FinishPassKeeps(s: System, o: LoopOutcome)
    requires Inv(s)
    ensures Inv(FinishPass(s, o)) && FinishPass(s, o).pc == Outside
    decreases Remaining(s.pc)
  {
    if s.pc == Outside {
    } else {
      StagesEnd(s, o);
      LoopKeeps(s, o);
      FinishPassKeeps(RunLoop(s, o), o);
    }
  }

  /** The pass that completes a stop keeps the commands sent meanwhile if the report of the
      ended task was already acknowledged, and drops them all otherwise. */
  lemma StoppingPass(s: System, o: LoopOutcome)
    requires Inv(s) && s.pc == Outside && s.mode == Stopping && (s.task == NoTask || s.task == Suspended)
    requires o.outputStopped
    ensures var u := Pass(s, o);
            && Inv(u) && u.pc == Outside && u.mode == Stopped
            && SameCommands(u.bits, if s.bits.stopped then NO_BITS else s.bits)
  {
    PassIsCommanded(s, o);
    StoppingDefersCommands(s);
    var t := s.(pc := Reread);
    CommandsOutlivePass(t, o);
    StopCompletes(t, o);
    FinishPassKeeps(t, o);
  }

  predicate Pending(b: Bits, c: Command) {
    match c
    case Start => b.cmdStart
    case Stop => b.cmdStop
    case Finish => b.cmdFinish
  }

  /** Nothing between here and the end of the stop will clear the event group. */
  predicate Safe(s: System) {
    s.task == NoTask && s.pc != ClearAll
  }

  /** What a stage does to the commands of a stopping speaker: only one drops them. */
  lemma StoppingStageCommands(s: System, o: LoopOutcome)
    requires s.mode == Stopping
    ensures SameCommands(RunLoop(s, o).bits, if s.pc == ClearAll then NO_BITS else s.bits)
  {
    if s.pc.Commanding? {
      StoppingIgnores(s, s.pc.snap);
    } else if s.pc != Outside {
      StageKeepsCommands(s, o);
    }
  }

  lemma StoppingIgnores(s: System, snap: Bits)
    requires s.mode == Stopping
    ensures Commands(s, snap) == s
  {
    if snap.cmdStop {
    } else if snap.cmdFinish {
    } else if snap.cmdStart {
    }
  }

  lemma OnErrorKeepsTask(s: System, hit: bool, acknowledged: Bits, next: LoopPc)
    requires s.mode == Stopping
    ensures var t := OnError(s, hit, acknowledged, next); t.task == s.task && t.pc == next && t.mode == Stopping
  {
    if hit && s.task != NoTask {
    }
  }

  lemma ErrorStageKeepsSafe(s: System, o: LoopOutcome)
    requires s.mode == Stopping && (s.pc.CheckNoMem? || s.pc.CheckNotSupported? || s.pc.CheckFail?)
    ensures (Safe(RunLoop(s, o)) <==> Safe(s)) && RunLoop(s, o).mode == Stopping
  {
    var snap := s.pc.snap;
    if s.pc.CheckNoMem? {
      OnErrorKeepsTask(s, snap.noMem, s.bits.(noMem := false), CheckNotSupported(snap));
    } else if s.pc.CheckNotSupported? {
      OnErrorKeepsTask(s, snap.notSupported, s.bits.(notSupported := false), CheckFail(snap));
    } else {
      OnErrorKeepsTask(s, snap.fail, s.bits.(fail := false), ClearRunning(snap));
    }
  }

  lemma PlainStageKeepsSafe(s: System, o: LoopOutcome)
    requires Inv(s) && s.mode == Stopping && !s.pc.CheckNoMem? && !s.pc.CheckNotSupported? && !s.pc.CheckFail?
    requires s.pc != ClearAll && s.pc != Dispatch
    ensures (Safe(RunLoop(s, o)) <==> Safe(s)) && RunLoop(s, o).mode == Stopping
  {
    match s.pc
    case Outside =>
    case Commanding(snap) => StoppingIgnores(s, snap);
    case Reread =>
    case ClearStarting(snap) =>
    case ClearRunning(snap) =>
    case ClearStopping(snap) =>
    case CheckStopped(snap) =>
      if snap.stopped {
      }
  }

  /** Every stage but the clearing one leaves a stopping speaker as safe as it was, and the
      stop is completed from a safe state only. */
  lemma StoppingStageSafe(s: System, o: LoopOutcome)
    requires Inv(s) && s.mode == Stopping
    ensures s.pc != ClearAll ==> (Safe(RunLoop(s, o)) <==> Safe(s))
    ensures RunLoop(s, o).mode == Stopped ==> Safe(s) && RunLoop(s, o).pc == Outside
  {
    if s.pc.CheckNoMem? || s.pc.CheckNotSupported? || s.pc.CheckFail? {
      ErrorStageKeepsSafe(s, o);
    } else if s.pc == Dispatch {
      if o.outputStopped && s.task == NoTask {
      }
    } else if s.pc != ClearAll {
      PlainStageKeepsSafe(s, o);
    }
  }

  lemma TaskKeepsSafe(s: System, setup: Setup, work: Work)
    ensures var t := RunTask(s, setup, work);
            (Safe(t) <==> Safe(s)) && t.mode == s.mode && SameCommands(t.bits, s.bits)
  {
    match s.task
    case SettingUp =>
      match setup {
        case SetupOk =>
        case SetupNoMem =>
        case SetupNotSupported =>
        case SetupOther =>
      }
    case Resampling =>
      match work {
        case Again =>
        case Finished =>
        case WorkFailed =>
      }
    case _ =>
  }

  /** One step of anyone, seen by one command that is not sent again in it. */
  lemma StoppingStep(s: System, step: Step, c: Command)
    requires Inv(s) && s.mode == Stopping && step != Send(c)
    ensures var t := Next(s, step);
            && Inv(t)
            && (Safe(t) && Pending(t.bits, c) <==> Safe(s) && Pending(s.bits, c))
            && (t.mode == Stopped ==> Safe(t) && t.pc == Outside)
  {
    StepKeeps(s, step);
    match step
    case LoopStep(o) =>
      StoppingStageCommands(s, o);
      StoppingStageSafe(s, o);
    case TaskStep(setup, work) =>
      TaskKeepsSafe(s, setup, work);
    case Send(other) =>
  }

  /** `steps` takes a stopping speaker to the end of its stop, and not beyond. */
  predicate CompletesStop(s: System, steps: seq<Step>)
    decreases |steps|
  {
    && s.mode == Stopping && steps != []
    && var t := Next(s, steps[0]);
    if |steps| == 1 then t.mode == Stopped else CompletesStop(t, steps[1..])
  }

  /** However loop, task and other commands are interleaved on the way, a command pending on a
      stopping speaker and not sent again is pending when the stop completes if and only if
      there was no task any more and the event group was not about to be cleared. */
  lemma {:induction false} CommandOutlivesStop(s: System, steps: seq<Step>, c: Command)
    requires Inv(s) && CompletesStop(s, steps) && Send(c) !in steps
    ensures var u := Run(s, steps);
            && Inv(u) && u.mode == Stopped && u.pc == Outside
            && (Pending(u.bits, c) <==> Pending(s.bits, c) && Safe(s))
    decreases |steps|
  {
    var t := Next(s, steps[0]);
    StoppingStep(s, steps[0], c);
    if |steps| == 1 {
      assert Run(t, steps[1..]) == t;
    } else {
      CommandOutlivesStop(t, steps[1..], c);
    }
  }

  predicate NoCommands(steps: seq<Step>) {
    forall i :: 0 <= i < |steps| ==> !steps[i].Send?
  }

  /** A start sent to a stopping speaker of any reachable state: whatever happens until the
      stop completes, the next pass takes it if and only if it was sent when the task was
      already gone and the event group cleared of its reports. */
  lemma StartWhileStopping(before: seq<Step>, steps: seq<Step>, o: LoopOutcome)
    requires var s := Run(INITIAL, before);
             CompletesStop(s, steps) && NoCommands(steps) && s.bits.cmdStart && !s.bits.cmdStop && !s.bits.cmdFinish
    ensures var s, u := Run(INITIAL, before), Run(Run(INITIAL, before), steps);
            && u.mode == Stopped && u.pc == Outside
            && (Pass(u, o).mode != Stopped <==> s.task == NoTask && s.pc != ClearAll)
  {
    RunKeeps(INITIAL, before);
    var s := Run(INITIAL, before);
    CommandOutlivesStop(s, steps, Start);
    CommandOutlivesStop(s, steps, Stop);
    CommandOutlivesStop(s, steps, Finish);
    var u := Run(s, steps);
    if Safe(s) {
      StoppedTakesStart(u, o);
    } else {
      StoppedStaysStopped(u, o);
    }
  }

  // ---------------------------------------------------------------- stops can complete

  /** An outcome in which the output has stopped. */
  const SILENT := LoopOutcome(false, true, false, false, false)

  /** What still has to happen: the task's way to its end, then the pass that sees it. */
  function StagesLeft(s: System): nat {
    if WillSee(s) && s.pc == Outside then 12 else Remaining(s.pc)
  }

  lemma OneStepNearer(s: System, step: Step, steps: seq<Step>)
    requires s.mode == Stopping && !step.Send? && CompletesStop(Next(s, step), steps) && NoCommands(steps)
    ensures CompletesStop(s, [step] + steps) && NoCommands([step] + steps)
  {
    assert ([step] + steps)[1..] == steps;
  }

  lemma TaskComesNearer(s: System)
    requires Inv(s) && s.mode == Stopping && s.task != NoTask && s.task != Suspended
    ensures var t := RunTask(s, SetupOther, Finished);
            Inv(t) && t.mode == Stopping && Distance(t.task) < Distance(s.task)
  {
    TaskKeeps(s, SetupOther, Finished);
  }

  lemma BlindStage(s: System)
    requires Inv(s) && s.mode == Stopping && s.task == Suspended && !WillSee(s)
    ensures var t := RunLoop(s, SILENT);
            && Inv(t) && t.mode == Stopping && t.task == Suspended
            && (WillSee(t) || Remaining(t.pc) < Remaining(s.pc))
  {
    LoopKeeps(s, SILENT);
    if s.pc.CheckNoMem? || s.pc.CheckNotSupported? || s.pc.CheckFail? {
      ErrorStageKeepsSuspended(s);
    } else {
      match s.pc
      case Outside =>
      case ClearStarting(snap) =>
      case ClearRunning(snap) =>
      case ClearStopping(snap) =>
      case CheckStopped(snap) =>
      case Dispatch =>
      case _ =>
    }
  }

  lemma ErrorStageKeepsSuspended(s: System)
    requires s.mode == Stopping && (s.pc.CheckNoMem? || s.pc.CheckNotSupported? || s.pc.CheckFail?)
    ensures var t := RunLoop(s, SILENT);
            t.mode == Stopping && t.task == s.task && Remaining(t.pc) < Remaining(s.pc)
  {
    var snap := s.pc.snap;
    if s.pc.CheckNoMem? {
      OnErrorKeepsTask(s, snap.noMem, s.bits.(noMem := false), CheckNotSupported(snap));
    } else if s.pc.CheckNotSupported? {
      OnErrorKeepsTask(s, snap.notSupported, s.bits.(notSupported := false), CheckFail(snap));
    } else {
      OnErrorKeepsTask(s, snap.fail, s.bits.(fail := false), ClearRunning(snap));
    }
  }

  lemma SeeingStage(s: System)
    requires Inv(s) && s.mode == Stopping && WillSee(s) && s.pc != Dispatch
    ensures var t := RunLoop(s, SILENT);
            Inv(t) && t.mode == Stopping && WillSee(t) && StagesLeft(t) < StagesLeft(s) && Distance(t.task) == 0
  {
    LoopKeeps(s, SILENT);
    if s.pc != Outside {
      StoppingStage(s, SILENT);
      StagesEnd(s, SILENT);
    }
  }

  lemma LoopComesNearer(s: System)
    requires Inv(s) && s.mode == Stopping && (s.task == NoTask || s.task == Suspended)
    requires !(s.pc == Dispatch && s.task == NoTask)
    ensures var t := RunLoop(s, SILENT);
            && Inv(t) && t.mode == Stopping && Distance(t.task) == 0
            && (WillSee(s) ==> WillSee(t) && StagesLeft(t) < StagesLeft(s))
            && (!WillSee(s) && !WillSee(t) ==> StagesLeft(t) < StagesLeft(s))
  {
    if WillSee(s) {
      SeeingStage(s);
    } else {
      BlindStage(s);
    }
  }

  /** From every state of a stopping speaker the stop can be completed without a command. */
  lemma {:induction false} StopCanComplete(s: System) returns (steps: seq<Step>)
    requires Inv(s) && s.mode == Stopping
    ensures CompletesStop(s, steps) && NoCommands(steps)
    decreases Distance(s.task), !WillSee(s), StagesLeft(s)
  {
    if s.task != NoTask && s.task != Suspended {
      TaskComesNearer(s);
      var rest := StopCanComplete(RunTask(s, SetupOther, Finished));
      OneStepNearer(s, TaskStep(SetupOther, Finished), rest);
      steps := [TaskStep(SetupOther, Finished)] + rest;
    } else if s.pc == Dispatch && s.task == NoTask {
      steps := [LoopStep(SILENT)];
    } else {
      LoopComesNearer(s);
      var rest := StopCanComplete(RunLoop(s, SILENT));
      OneStepNearer(s, LoopStep(SILENT), rest);
      steps := [LoopStep(SILENT)] + rest;
    }
  }

  // ---------------------------------------------------------------- a lost start

  ghost predicate Reachable(s: System) {
    exists steps :: Run(INITIAL, steps) == s
  }

  lemma {:induction false} RunSnoc(s: System, steps: seq<Step>, step: Step)
    ensures Run(s, steps + [step]) == Next(Run(s, steps), step)
    decreases |steps|
  {
    if steps == [] {
      assert steps + [step] == [step] && Run(Next(s, step), []) == Next(s, step);
    } else {
      RunSnoc(Next(s, steps[0]), steps[1..], step);
      assert (steps + [step])[1..] == steps[1..] + [step];
    }
  }

  lemma Reach(s: System, step: Step)
    requires Reachable(s)
    ensures Reachable(Next(s, step))
  {
    var steps :| Run(INITIAL, steps) == s;
    RunSnoc(INITIAL, steps, step);
  }

  lemma {:induction false} ReachPass(s: System, o: LoopOutcome)
    requires Reachable(s)
    ensures Reachable(FinishPass(s, o))
    decreases Remaining(s.pc)
  {
    if s.pc == Outside {
    } else {
      StagesEnd(s, o);
      Reach(s, LoopStep(o));
      ReachPass(RunLoop(s, o), o);
    }
  }

  const UNDERWAY := LoopOutcome(false, false, false, true, true)

  /** Started, and its task created. */
  lemma StartedUp() returns (s: System)
    ensures Reachable(s) && s == System(Starting, true, Fresh, NO_BITS, Outside)
  {
    assert Run(INITIAL, []) == INITIAL;
    Reach(INITIAL, Send(Start));
    var a := Next(INITIAL, Send(Start));
    Reach(a, LoopStep(UNDERWAY));
    ReachPass(RunLoop(a, UNDERWAY), UNDERWAY);
    StoppedTakesStart(a, UNDERWAY);
    s := Pass(a, UNDERWAY);
  }

  /** Told to stop before the task ran. */
  lemma StoppedEarly() returns (s: System)
    ensures Reachable(s) && s == System(Stopping, false, Fresh, NO_BITS.(taskStop := true), Outside)
  {
    var a := StartedUp();
    Reach(a, Send(Stop));
    var b := Next(a, Send(Stop));
    Reach(b, LoopStep(UNDERWAY));
    ReachPass(RunLoop(b, UNDERWAY), UNDERWAY);
    PassIsCommanded(b, UNDERWAY);
    s := System(Stopping, false, Fresh, NO_BITS.(taskStop := true), Outside);
    assert Commanded(b) == s.(pc := Reread);
    QuietPass(s.(pc := Reread), UNDERWAY);
  }

  /** The loss is real: a start, a stop, and a start again once the task has reported its end;
      the next pass stops the speaker and the last start is gone. */
  lemma StartIsLost() returns (s: System, o: LoopOutcome)
    ensures Reachable(s) && s.pc == Outside && s.mode == Stopping && s.bits.cmdStart
    ensures Pass(s, o).mode == Stopped && !Pass(s, o).bits.cmdStart
  {
    var a := StoppedEarly();
    Reach(a, TaskStep(SetupOther, Again));
    var b := RunTask(a, SetupOther, Again);
    Reach(b, TaskStep(SetupOther, Again));
    var c := RunTask(b, SetupOther, Again);
    Reach(c, TaskStep(SetupOther, Again));
    var d := RunTask(c, SetupOther, Again);
    Reach(d, TaskStep(SetupOther, Again));
    var e := RunTask(d, SetupOther, Again);
    Reach(e, Send(Start));
    s, o := Next(e, Send(Start)), LoopOutcome(false, true, false, false, false);
    assert s.task == Suspended && s.bits.stopped;
    var steps :| Run(INITIAL, steps) == s;
    RunKeeps(INITIAL, steps);
    StoppingPass(s, o);
  }

  /** Nor need the task have reported anything: a start, a stop and a start again before the
      task has run at all; the stop can complete, and whichever way it does the start is gone. */
  lemma UnreportedStartIsLost() returns (s: System, steps: seq<Step>)
    ensures Reachable(s) && s.mode == Stopping && !TaskBit(s.bits) && s.bits.cmdStart
    ensures CompletesStop(s, steps) && NoCommands(steps)
    ensures forall other :: CompletesStop(s, other) && NoCommands(other) ==> !Run(s, other).bits.cmdStart
  {
    var a := StoppedEarly();
    Reach(a, Send(Start));
    s := Next(a, Send(Start));
    assert Inv(s);
    steps := StopCanComplete(s);
    forall other | CompletesStop(s, other) && NoCommands(other)
      ensures !Run(s, other).bits.cmdStart
    {
      CommandOutlivesStop(s, other, Start);
    }
  }
}
