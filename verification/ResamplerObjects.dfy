/** `ResamplerSpeaker` as an object: its loop stages and its task act on the shared event
    group exactly as the step functions of `Resampler` say. */
module ResamplerObjects {
  import opened Resampler

  class ResamplerSpeaker {
    var mode: Mode
    var waiting: bool
    var task: TaskPc
    var bits: Bits
    var pc: LoopPc

    ghost function View(): System
      reads this
    {
      System(mode, waiting, task, bits, pc)
    }

    constructor ()
      ensures View() == INITIAL
    {
      mode, waiting, task, bits, pc := Stopped, false, NoTask, NO_BITS, Outside;
    }

    method EnterStoppingState()
      modifies this`mode, this`bits
      ensures View() == EnterStopping(old(View()))
    {
      mode := Stopping;
      if task != NoTask {
        bits := bits.(taskStop := true);
      }
    }

    method ProcessCommands(snap: Bits)
      modifies this
      ensures View() == Commands(old(View()), snap)
    {
      if snap.cmdStop {
        if mode == Running || mode == Starting {
          bits := ClearCommands(bits);
          waiting := false;
          EnterStoppingState();
        } else if mode == Stopped {
          bits := ClearCommands(bits);
        }
      } else if snap.cmdFinish {
        if mode == Running || mode == Stopped {
          bits := bits.(cmdFinish := false);
        }
      } else if snap.cmdStart {
        if mode == Stopped {
          bits := bits.(cmdStart := false);
          mode := Starting;
        } else if mode == Running {
          bits := bits.(cmdStart := false);
        }
      }
    }

    /** Creates the task; refused when there is one already or memory is short. */
    method CreateTask(created: bool) returns (ok: bool)
      modifies this`task
      ensures ok == (created && old(task) == NoTask) && task == (if ok then Fresh else old(task))
    {
      ok := created && task == NoTask;
      if ok {
        task := Fresh;
      }
    }

    method Start(o: LoopOutcome)
      modifies this
      ensures View() == StartNow(old(View()), o)
    {
      var ok := true;
      if o.needsTask {
        ok := CreateTask(o.created);
      }
      if ok {
        waiting := true;
      } else {
        waiting := false;
        EnterStoppingState();
      }
    }

    method DispatchOnMode(o: LoopOutcome)
      modifies this
      ensures View() == DispatchMode(old(View()), o)
    {
      match mode
      case Starting =>
        if !waiting {
          Start(o);
        } else if o.outputRunning {
          mode := Running;
          waiting := false;
        } else if o.timedOut {
          waiting := false;
          EnterStoppingState();
        }
      case Running =>
        if o.outputStopped {
          EnterStoppingState();
        }
      case Stopping =>
        if o.outputStopped && task == NoTask {
          waiting := false;
          mode := Stopped;
        }
      case Stopped =>
    }

    /** The three error reports of the task, in the order the loop looks at them. */
    method CheckErrors()
      requires pc.CheckNoMem? || pc.CheckNotSupported? || pc.CheckFail?
      modifies this
      ensures forall o :: View() == RunLoop(old(View()), o)
    {
      var snap := pc.snap;
      match pc
      case CheckNoMem(_) =>
        if snap.noMem {
          bits := bits.(noMem := false);
          EnterStoppingState();
        }
        pc := CheckNotSupported(snap);
      case CheckNotSupported(_) =>
        if snap.notSupported {
          bits := bits.(notSupported := false);
          EnterStoppingState();
        }
        pc := CheckFail(snap);
      case CheckFail(_) =>
        if snap.fail {
          bits := bits.(fail := false);
          EnterStoppingState();
        }
        pc := ClearRunning(snap);
    }

    /** One stage of `loop()`. */
    method LoopStage(o: LoopOutcome)
      modifies this
      ensures View() == RunLoop(old(View()), o)
    {
      match pc
      case Outside => pc := Commanding(bits);
      case Commanding(snap) =>
        ProcessCommands(snap);
        pc := Reread;
      case Reread => pc := ClearStarting(bits);
      case ClearStarting(snap) =>
        if snap.starting {
          bits := bits.(starting := false);
        }
        pc := CheckNoMem(snap);
      case CheckNoMem(_) => CheckErrors();
      case CheckNotSupported(_) => CheckErrors();
      case CheckFail(_) => CheckErrors();
      case ClearRunning(snap) =>
        if snap.running {
          bits := bits.(running := false);
        }
        pc := ClearStopping(snap);
      case ClearStopping(snap) =>
        if snap.stopping {
          bits := bits.(stopping := false);
        }
        pc := CheckStopped(snap);
      case CheckStopped(snap) =>
        if snap.stopped {
          task := NoTask;
          pc := ClearAll;
        } else {
          pc := Dispatch;
        }
      case ClearAll =>
        bits := NO_BITS;
        pc := Dispatch;
      case Dispatch =>
        DispatchOnMode(o);
        pc := Outside;
    }

    /** One stage of `resample_task`. */
    method TaskStage(setup: Setup, work: Work)
      modifies this`task, this`bits
      ensures View() == RunTask(old(View()), setup, work)
    {
      match task
      case NoTask =>
      case Fresh =>
        bits := bits.(starting := true);
        task := SettingUp;
      case SettingUp =>
        match setup {
          case SetupOk =>
            bits := bits.(running := true);
          case SetupNoMem =>
            bits := bits.(noMem := true);
          case SetupNotSupported =>
            bits := bits.(notSupported := true);
          case SetupOther =>
        }
        task := if setup == SetupOk then Looping else Winding;
      case Looping =>
        task := if bits.taskStop then Winding else Resampling;
      case Resampling =>
        if work == WorkFailed {
          bits := bits.(fail := true);
        }
        task := if work == Again then Looping else Winding;
      case Winding =>
        bits := bits.(stopping := true);
        task := Closing;
      case Closing =>
        bits := bits.(stopped := true);
        task := Suspended;
      case Suspended =>
    }

    /** One step of whoever is scheduled next; a command only sets its bit. */
    method Take(step: Step)
      modifies this
      ensures View() == Next(old(View()), step)
    {
      match step
      case LoopStep(o) => LoopStage(o);
      case TaskStep(setup, work) => TaskStage(setup, work);
      case Send(c) => bits := Raised(bits, c);
    }
  }

  /** A new speaker under any schedule: when it is stopped no task exists, and when it is
      stopping its task has been told. */
  method Schedule(steps: seq<Step>) returns (speaker: ResamplerSpeaker)
    ensures fresh(speaker) && speaker.View() == Run(INITIAL, steps)
    ensures speaker.mode == Stopped ==> speaker.task == NoTask
    ensures speaker.mode == Stopping && speaker.task != NoTask ==> speaker.bits.taskStop
  {
    speaker := new ResamplerSpeaker();
    for i := 0 to |steps|
      invariant fresh(speaker) && speaker.View() == Run(INITIAL, steps[..i])
    {
      RunSnoc(INITIAL, steps[..i], steps[i]);
      assert steps[..i + 1] == steps[..i] + [steps[i]];
      speaker.Take(steps[i]);
    }
    assert steps[..|steps|] == steps;
    RunKeeps(INITIAL, steps);
  }
}
