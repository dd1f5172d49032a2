/** The speaker task and its interrupt handler as one object over the shared event queue. */
module SpeakerObjects {
  import opened Speaker
  import opened SpeakerRuns

  class SpeakerTask {
    const format: Format
    const expansion: array<Slot>
    var pc: Pc
    var buffer: seq<Sample>
    var framesWritten: nat
    var underflow: bool
    var stopBit: bool
    var gracefulBit: bool
    var stopGracefully: bool
    var dma: Dma

    ghost predicate Valid()
      reads this
    {
      && ValidFormat(format) && expansion.Length == format.frames * format.channels
      && |buffer| <= expansion.Length
    }

    function View(): Task
      reads this
    {
      Task(format, pc, buffer, framesWritten, underflow, stopBit, gracefulBit, stopGracefully, dma)
    }

    constructor (format: Format)
      requires ValidFormat(format)
      ensures Valid() && fresh(expansion)
      ensures View() == Task(format, Top, [], 0, true, false, false, false, Dma(0, true, false, []))
    {
      this.format := format;
      expansion := new Slot[format.frames * format.channels];
      pc, buffer, framesWritten, underflow := Top, [], 0, true;
      stopBit, gracefulBit, stopGracefully := false, false, false;
      dma := Dma(0, true, false, []);
    }

    /** `i2s_on_sent_cb`, run by the driver when a buffer with a callback is done. */
    method OnSent()
      requires Valid()
      modifies this
      ensures Valid() && View() == OnInterrupt(old(View()))
    {
      if !dma.enabled {
        return;
      }
      var played := Min(format.frames, dma.pending);
      if dma.callback {
        if |dma.queue| >= EVENT_QUEUE {
          dma := dma.(queue := dma.queue[1..]);
          stopBit := true;
        }
        dma := dma.(queue := dma.queue + [Done(played)]);
      }
      dma := dma.(pending := dma.pending - played);
    }

    method TopOfLoopNow(exits: bool)
      requires Valid() && pc == Top
      modifies this
      ensures Valid() && View() == TopOfLoop(old(View()), exits)
    {
      if exits {
        pc := Exited(false);
        return;
      }
      if stopBit {
        stopBit := false;
        pc := Exited(false);
        return;
      }
      if gracefulBit {
        gracefulBit := false;
        stopGracefully := true;
      }
      pc := Draining;
    }

    /** One `xQueueReceive`: settles an event against the outstanding credits and says how
        many frames were reported. */
    method Settle() returns (framesSent: nat)
      requires Valid() && dma.queue != []
      modifies this`framesWritten, this`underflow, this`dma
      ensures View() == DrainOne(old(View()), false) && framesSent == Credit(old(View()))
    {
      dma := dma.(queue := dma.queue[1..]);
      framesSent := format.frames;
      if format.frames > framesWritten {
        underflow := true;
        framesSent := framesWritten;
      } else {
        underflow := false;
      }
      framesWritten := framesWritten - framesSent;
    }

    /** The event loop; what it reports is exactly the credit it gives up. */
    method DrainEvents() returns (reported: nat)
      requires Valid()
      modifies this`framesWritten, this`underflow, this`dma
      ensures Valid() && View() == DrainAll(old(View()))
      ensures reported == old(framesWritten) - framesWritten
    {
      reported := 0;
      while dma.queue != []
        invariant DrainAll(View()) == DrainAll(old(View()))
        invariant reported == old(framesWritten) - framesWritten
        decreases |dma.queue|
      {
        var framesSent := Settle();
        reported := reported + framesSent;
      }
    }

    /** `apply_software_volume_` on the samples from `start` on, in place. */
    method ApplyGain(start: nat, gain: Sample -> Sample)
      requires start <= |buffer|
      modifies this`buffer
      ensures |buffer| == |old(buffer)|
      ensures forall k :: 0 <= k < |buffer| ==> buffer[k] == if start <= k then gain(old(buffer)[k]) else old(buffer)[k]
    {
      for i := start to |buffer|
        invariant |buffer| == |old(buffer)|
        invariant forall k :: 0 <= k < |buffer| ==>
                    buffer[k] == if start <= k < i then gain(old(buffer)[k]) else old(buffer)[k]
      {
        buffer := buffer[i := gain(buffer[i])];
      }
    }

    /** The source appends what it has; only the new samples are scaled. */
    method ReadFromSource(raw: seq<Sample>, gain: Sample -> Sample)
      requires Valid() && pc == Reading && |buffer| + |raw| <= format.frames * format.channels
      modifies this`buffer, this`pc
      ensures Valid() && View() == ReadSource(old(View()), raw, gain)
      ensures |buffer| == |old(buffer)| + |raw| && buffer[..|old(buffer)|] == old(buffer)
      ensures forall k :: 0 <= k < |raw| ==> buffer[|old(buffer)| + k] == gain(raw[k])
    {
      var start := |buffer|;
      buffer := buffer + raw;
      if |raw| > 0 {
        ApplyGain(start, gain);
      }
      assert buffer == old(buffer) + Gained(raw, gain);
      pc := Writing;
    }

    /** Fills the expansion buffer with the widened samples. */
    method ExpandSamples()
      requires Valid() && format.expand
      modifies expansion
      ensures expansion[..|buffer|] == Slots(format, buffer)
      ensures forall k :: 0 <= k < |buffer| ==> expansion[k] == (buffer[k] as int) * 65536
    {
      for s := 0 to |buffer|
        invariant forall k :: 0 <= k < s ==> expansion[k] == Widen(format, buffer[k])
      {
        expansion[s] := (buffer[s] as int) * 0x1_0000;
      }
    }

    /** What the driver is offered: the buffer itself, or its expansion. */
    method Offer() returns (offered: seq<Slot>)
      requires Valid()
      modifies expansion
      ensures offered == Slots(format, buffer)
    {
      if format.expand {
        ExpandSamples();
        offered := expansion[..|buffer|];
      } else {
        offered := Slots(format, buffer);
      }
    }

    /** The driver took `frames` frames: restart the channel after an underflow, move the
        credits and the buffer on. */
    method Accept(frames: nat)
      requires Valid() && pc == Writing && Accepts(View(), frames) && buffer != []
      modifies this
      ensures Valid() && View() == WriteDma(old(View()), frames)
    {
      if underflow {
        dma := Dma(0, false, false, dma.queue);
      }
      if frames > 0 {
        framesWritten := framesWritten + frames;
        buffer := buffer[frames * format.channels..];
        dma := dma.(pending := dma.pending + frames);
        if underflow {
          underflow := false;
          dma := dma.(queue := [], callback := true, enabled := true);
        }
      }
      pc := Top;
    }

    /** Offers the buffer to the driver, which takes the first `frames` frames of it. */
    method WriteToDma(frames: nat) returns (taken: seq<Slot>)
      requires Valid() && pc == Writing && Accepts(View(), frames)
      modifies this, expansion
      ensures Valid() && View() == WriteDma(old(View()), frames)
      ensures taken == Slots(format, old(buffer))[..frames * format.channels]
    {
      if |buffer| == 0 {
        pc := if stopGracefully && underflow then Exited(true) else Top;
        return [];
      }
      var offered := Offer();
      taken := offered[..frames * format.channels];
      Accept(frames);
    }

    /** One event of the queue, or, when it is empty, leaving the event loop. */
    method DrainNow(paused: bool) returns (framesSent: nat)
      requires Valid() && pc == Draining
      modifies this
      ensures Valid() && View() == DrainOne(old(View()), paused)
      ensures framesSent == if old(dma.queue) == [] then 0 else Credit(old(View()))
    {
      if dma.queue == [] {
        pc := if paused then Top else Reading;
        return 0;
      }
      framesSent := Settle();
    }
  }

  /** What an observer of the outside of the task can count: frames reported to the output
      callback, samples taken from the source and the gain each was read with, slots the
      driver took. */
  datatype Account = Account(reported: nat, raws: seq<Sample>, gains: seq<Sample -> Sample>, slots: seq<Slot>)

  method Take(t: SpeakerTask, s: Step, a: Account) returns (b: Account)
    requires t.Valid() && Enabled(t.View(), s)
    modifies t, t.expansion
    ensures t.Valid() && t.View() == Next(old(t.View()), s)
    ensures forall h: History :: AccountOf(h) == a ==> AccountOf(Observe(World(old(t.View()), h), s)) == b
  {
    b := a;
    match s
    case Interrupt => t.OnSent();
    case CommandStop => t.stopBit := true;
    case CommandFinish => t.gracefulBit := true;
    case Loop(exits) => t.TopOfLoopNow(exits);
    case Drain(paused) =>
      var framesSent := t.DrainNow(paused);
      b := a.(reported := a.reported + framesSent);
    case Read(raw, gain) =>
      t.ReadFromSource(raw, gain);
      b := a.(raws := a.raws + raw, gains := a.gains + seq<Sample -> Sample>(|raw|, _ => gain));
    case Write(frames) =>
      var taken := t.WriteToDma(frames);
      b := a.(slots := a.slots + taken);
  }

  ghost function AccountOf(h: History): Account {
    Account(h.reported, h.raws, h.gains, h.slots)
  }

  /** A new task under any schedule (a step whose turn it is not is passed over): the slots
      taken are the samples read, in order, each scaled once by its own gain and widened; the
      rest waits in the buffer; and frames taken are frames reported plus credits. */
  method Schedule(format: Format, steps: seq<Step>) returns (t: SpeakerTask, a: Account)
    requires ValidFormat(format)
    ensures fresh(t) && t.format == format
    ensures |a.raws| == |a.gains| == |a.slots| + |t.buffer|
    ensures forall i :: 0 <= i < |a.slots| ==> InSlot(a.slots[i], a.raws[i], a.gains[i], format.expand)
    ensures forall i :: |a.slots| <= i < |a.raws| ==> InSlot(t.buffer[i - |a.slots|], a.raws[i], a.gains[i], false)
    ensures |a.slots| == (a.reported + t.framesWritten) * format.channels
  {
    t := new SpeakerTask(format);
    a := Account(0, [], [], []);
    ghost var w := World(t.View(), History([], [], [], [], 0, 0, 0, 0, false, false, true));
    assert Boot(w) && Run(w, [], w);
    for i := 0 to |steps|
      invariant fresh(t) && fresh(t.expansion) && t.Valid() && t.format == format
      invariant t.View() == w.t && AccountOf(w.h) == a && Reachable(w)
    {
      if Enabled(t.View(), steps[i]) {
        ghost var v := w;
        ReachNext(v, steps[i]);
        w := World(Next(v.t, steps[i]), Observe(v, steps[i]));
        a := Take(t, steps[i], a);
      }
    }
    ReachableKeeps(w);
    StreamPointwise(w);
  }
}
