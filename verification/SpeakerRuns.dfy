/** What every interleaving of speaker task, interrupt and hardware keeps. */
module SpeakerRuns {
  import opened Speaker

  /** raws:     every sample taken from the source; gains: the gain in force when it was read
      gained:   the same samples as the task has put them into its buffer
      accepted: frames the driver took, and the slots it was given
      reported: frames passed to the output callback; played: frames the hardware sent
      dropped:  accepted frames discarded unplayed when the channel was restarted
      lost:     the interrupt dropped an event from a full queue
      overtook: frames were added while the credits did not cover the events queued
      exact:    every report so far named the frames its buffer really held */
  datatype History = History(
    raws: seq<Sample>, gains: seq<Sample -> Sample>, gained: seq<Sample>, slots: seq<Slot>, accepted: nat, reported: nat,
    played: nat, dropped: nat, lost: bool, overtook: bool, exact: bool)

  datatype World = World(t: Task, h: History)

  /** At the moment of a write: one buffer for each event queued is more than the credits the
      task holds, both of which it can read. */
  predicate Overtakes(t: Task) {
    t.format.frames * |t.dma.queue| > t.framesWritten
  }

  predicate Prompt(h: History) {
    !h.lost && !h.overtook
  }

  function ObserveInterrupt(t: Task, h: History): History {
    if !t.dma.enabled then h
    else h.(played := h.played + Min(t.format.frames, t.dma.pending),
            lost := h.lost || (t.dma.callback && |t.dma.queue| >= EVENT_QUEUE))
  }

  function ObserveDrain(t: Task, h: History): History {
    if t.dma.queue == [] then h
    else h.(reported := h.reported + Credit(t), exact := h.exact && Credit(t) == t.dma.queue[0].played)
  }

  function ObserveWrite(t: Task, h: History, frames: nat): History
    requires frames * t.format.channels <= |t.buffer|
  {
    if t.buffer == [] then h
    else
      h.(accepted := h.accepted + frames,
         slots := h.slots + Slots(t.format, t.buffer)[..frames * t.format.channels],
         dropped := if t.underflow then h.dropped + t.dma.pending else h.dropped,
         overtook := h.overtook || (!t.underflow && frames > 0 && Overtakes(t)))
  }

  function Observe(w: World, s: Step): History
    requires Enabled(w.t, s)
  {
    match s
    case Interrupt => ObserveInterrupt(w.t, w.h)
    case Drain(_) => ObserveDrain(w.t, w.h)
    case Read(raw, gain) =>
      w.h.(raws := w.h.raws + raw, gains := w.h.gains + seq<Sample -> Sample>(|raw|, _ => gain), gained := w.h.gained + Gained(raw, gain))
    case Write(frames) => ObserveWrite(w.t, w.h, frames)
    case _ => w.h
  }

  ghost predicate Run(w: World, steps: seq<Step>, last: World)
    decreases |steps|
  {
    if steps == [] then last == w
    else Enabled(w.t, steps[0]) && Run(World(Next(w.t, steps[0]), Observe(w, steps[0])), steps[1..], last)
  }

  /** The task as it enters its loop: channel running without a callback, nothing written. */
  ghost predicate Boot(w: World) {
    && ValidFormat(w.t.format)
    && w.t == Task(w.t.format, Top, [], 0, true, w.t.stopBit, w.t.gracefulBit, false, Dma(0, true, false, []))
    && w.h == History([], [], [], [], 0, 0, 0, 0, false, false, true)
  }

  // ---------------------------------------------------------------- conservation

  ghost predicate BookInv(w: World) {
    && ValidFormat(w.t.format)
    && w.h.accepted == w.h.reported + w.t.framesWritten
    && (w.t.underflow ==> w.t.framesWritten == 0)
    && (!w.t.dma.callback ==> w.t.underflow)
    && (w.t.pc == Exited(true) ==> w.t.buffer == [] && w.t.underflow)
  }

  lemma BookKeeps(w: World, s: Step)
    requires BookInv(w) && Enabled(w.t, s)
    ensures BookInv(World(Next(w.t, s), Observe(w, s)))
  {
    match s
    case Interrupt =>
    case CommandStop =>
    case CommandFinish =>
    case Loop(exits) =>
    case Drain(paused) =>
    case Read(raw, gain) =>
    case Write(frames) =>
      if w.t.buffer == [] {
      } else if !w.t.underflow {
      } else if frames == 0 {
      }
  }

  // ---------------------------------------------------------------- the stream

  ghost predicate StreamInv(w: World) {
    && |w.t.buffer| <= w.t.format.frames * w.t.format.channels
    && |w.h.slots| == w.h.accepted * w.t.format.channels
    && w.h.slots + Slots(w.t.format, w.t.buffer) == Slots(w.t.format, w.h.gained)
    && ScaledOnce(w.h.raws, w.h.gains, w.h.gained)
  }

  /** Each sample has been through its own gain, exactly once. */
  ghost predicate ScaledOnce(raws: seq<Sample>, gains: seq<Sample -> Sample>, gained: seq<Sample>) {
    |raws| == |gains| == |gained| && forall i :: 0 <= i < |raws| ==> gained[i] == gains[i](raws[i])
  }

  lemma ScaledMore(h: History, raw: seq<Sample>, gain: Sample -> Sample)
    requires ScaledOnce(h.raws, h.gains, h.gained)
    ensures ScaledOnce(h.raws + raw, h.gains + seq<Sample -> Sample>(|raw|, _ => gain), h.gained + Gained(raw, gain))
  {
    var more := seq<Sample -> Sample>(|raw|, _ => gain);
    forall i | 0 <= i < |h.raws + raw|
      ensures (h.gained + Gained(raw, gain))[i] == (h.gains + more)[i]((h.raws + raw)[i])
    {
      if i >= |h.raws| {
        assert (h.gains + more)[i] == more[i - |h.raws|] == gain;
      }
    }
  }

  lemma SlotsConcat(c: Format, a: seq<Sample>, b: seq<Sample>)
    ensures Slots(c, a + b) == Slots(c, a) + Slots(c, b)
  {
  }

  lemma ReadKeepsStream(w: World, raw: seq<Sample>, gain: Sample -> Sample)
    requires StreamInv(w) && Enabled(w.t, Read(raw, gain))
    ensures StreamInv(World(Next(w.t, Read(raw, gain)), Observe(w, Read(raw, gain))))
  {
    var xs := Gained(raw, gain);
    SlotsConcat(w.t.format, w.t.buffer, xs);
    SlotsConcat(w.t.format, w.h.gained, xs);
    ScaledMore(w.h, raw, gain);
  }

  /** Handing over a prefix of the buffer keeps the concatenation. */
  lemma PrefixHandedOver(c: Format, slots: seq<Slot>, buffer: seq<Sample>, n: nat)
    requires n <= |buffer|
    ensures slots + Slots(c, buffer) == slots + Slots(c, buffer)[..n] + Slots(c, buffer[n..])
  {
    assert Slots(c, buffer) == Slots(c, buffer)[..n] + Slots(c, buffer[n..]);
  }

  lemma WriteKeepsStream(w: World, frames: nat)
    requires StreamInv(w) && Enabled(w.t, Write(frames))
    ensures StreamInv(World(Next(w.t, Write(frames)), Observe(w, Write(frames))))
  {
    var c := w.t.format;
    PrefixHandedOver(c, w.h.slots, w.t.buffer, frames * c.channels);
    assert (w.h.accepted + frames) * c.channels == w.h.accepted * c.channels + frames * c.channels;
    var u, k := WriteDma(w.t, frames), ObserveWrite(w.t, w.h, frames);
    if w.t.buffer != [] {
      assert u.format == c && u.buffer == w.t.buffer[frames * c.channels..];
      assert k.slots == w.h.slots + Slots(c, w.t.buffer)[..frames * c.channels];
      assert k.gained == w.h.gained && k.accepted == w.h.accepted + frames;
    }
  }

  lemma StreamKeeps(w: World, s: Step)
    requires StreamInv(w) && Enabled(w.t, s)
    ensures StreamInv(World(Next(w.t, s), Observe(w, s)))
  {
    match s
    case Interrupt =>
    case CommandStop =>
    case CommandFinish =>
    case Loop(exits) =>
    case Drain(paused) =>
    case Read(raw, gain) => ReadKeepsStream(w, raw, gain);
    case Write(frames) => WriteKeepsStream(w, frames);
  }

  // ---------------------------------------------------------------- bounds

  /** Credits outstanding are covered by what is pending plus one buffer an event, until an
      event is dropped; from then on the task makes at most one more write. */
  ghost predicate BoundInv(t: Task) {
    var f := t.format.frames;
    && |t.dma.queue| <= EVENT_QUEUE && t.dma.pending <= DMA_BUFFERS * f
    && (!t.stopBit && !t.pc.Exited? ==> t.framesWritten <= t.dma.pending + f * |t.dma.queue|)
    && (t.stopBit && t.pc != Top && !t.pc.Exited? ==> t.framesWritten <= 9 * f)
    && t.framesWritten <= 13 * f
  }

  lemma Scale(f: nat, n: nat)
    requires n <= EVENT_QUEUE
    ensures f * n <= 5 * f && f * (n + 1) == f * n + f
  {
  }

  lemma InterruptKeepsBound(t: Task)
    requires BoundInv(t) && (t.underflow ==> t.framesWritten == 0) && (!t.dma.callback ==> t.underflow)
    ensures BoundInv(OnInterrupt(t))
  {
    Scale(t.format.frames, |t.dma.queue|);
    if t.dma.enabled {
      if !t.dma.callback {
      } else if |t.dma.queue| >= EVENT_QUEUE {
      }
    }
  }

  lemma DrainKeepsBound(t: Task, paused: bool)
    requires BoundInv(t) && t.pc == Draining
    ensures BoundInv(DrainOne(t, paused))
  {
    if t.dma.queue != [] {
      Scale(t.format.frames, |t.dma.queue| - 1);
      if t.format.frames > t.framesWritten {
      }
    } else if paused {
    }
  }

  lemma WriteKeepsBound(t: Task, frames: nat)
    requires BoundInv(t) && (t.underflow ==> t.framesWritten == 0) && t.pc == Writing && Accepts(t, frames)
    ensures BoundInv(WriteDma(t, frames))
  {
    Scale(t.format.frames, |t.dma.queue|);
    if t.buffer == [] {
    } else if !t.underflow {
    } else if frames == 0 {
    }
  }

  lemma BoundKeeps(t: Task, s: Step)
    requires BoundInv(t) && (t.underflow ==> t.framesWritten == 0) && (!t.dma.callback ==> t.underflow) && Enabled(t, s)
    ensures BoundInv(Next(t, s))
  {
    match s
    case Interrupt => InterruptKeepsBound(t);
    case CommandStop => Scale(t.format.frames, |t.dma.queue|);
    case CommandFinish =>
    case Loop(exits) =>
    case Drain(paused) => DrainKeepsBound(t, paused);
    case Read(raw, gain) =>
    case Write(frames) => WriteKeepsBound(t, frames);
  }

  // ---------------------------------------------------------------- reports against reality

  function Sum(queue: seq<Done>): nat {
    if queue == [] then 0 else queue[0].played + Sum(queue[1..])
  }

  lemma {:induction false} SumSnoc(queue: seq<Done>, d: Done)
    ensures Sum(queue + [d]) == Sum(queue) + d.played
  {
    if queue == [] {
      assert queue + [d] == [d] && [d][1..] == [];
    } else {
      SumSnoc(queue[1..], d);
      assert (queue + [d])[1..] == queue[1..] + [d];
    }
  }

  lemma {:induction false} SumSilent(queue: seq<Done>)
    requires forall i :: 0 <= i < |queue| ==> queue[i].played == 0
    ensures Sum(queue) == 0
  {
    if queue == [] {
    } else {
      SumSilent(queue[1..]);
    }
  }

  /** Once a buffer went out short of audio, nothing is pending and every later one was
      silent. */
  ghost predicate SilentAfterShort(queue: seq<Done>, frames: nat, pending: nat) {
    && (forall i :: 0 <= i < |queue| ==> queue[i].played <= frames)
    && (forall i :: 0 <= i < |queue| && queue[i].played < frames ==> pending == 0)
    && (forall i, j :: 0 <= i < j < |queue| && queue[i].played < frames ==> queue[j].played == 0)
  }

  predicate AllFull(queue: seq<Done>, frames: nat) {
    forall i :: 0 <= i < |queue| ==> queue[i].played == frames
  }

  predicate FirstShort(queue: seq<Done>, frames: nat, i: nat) {
    i < |queue| && AllFull(queue[..i], frames) && queue[i].played < frames
  }

  ghost predicate ExactInv(w: World) {
    var d := w.t.dma;
    Prompt(w.h) ==>
      && w.h.exact && w.h.dropped == 0
      && w.t.framesWritten == d.pending + Sum(d.queue)
      && w.h.played == w.h.reported + Sum(d.queue)
      && SilentAfterShort(d.queue, w.t.format.frames, d.pending)
  }

  /** A finished buffer is short only if it emptied what was pending. */
  lemma FinishedBuffer(queue: seq<Done>, frames: nat, pending: nat)
    requires SilentAfterShort(queue, frames, pending) && frames > 0
    ensures var played := Min(frames, pending);
            && SilentAfterShort(queue + [Done(played)], frames, pending - played)
            && Sum(queue + [Done(played)]) == Sum(queue) + played
  {
    SumSnoc(queue, Done(Min(frames, pending)));
  }

  lemma InterruptKeepsExact(w: World)
    requires BookInv(w) && BoundInv(w.t) && ExactInv(w)
    ensures ExactInv(World(OnInterrupt(w.t), ObserveInterrupt(w.t, w.h)))
  {
    var d := w.t.dma;
    if Prompt(w.h) && d.enabled {
      if !d.callback {
        assert d.pending == 0;
      } else if |d.queue| < EVENT_QUEUE {
        FinishedBuffer(d.queue, w.t.format.frames, d.pending);
      }
    }
  }

  /** Under prompt handling the credit of the next event is what its buffer held. */
  lemma CreditIsExact(w: World)
    requires ExactInv(w) && Prompt(w.h) && w.t.dma.queue != []
    ensures Credit(w.t) == w.t.dma.queue[0].played
  {
    var queue := w.t.dma.queue;
    if queue[0].played < w.t.format.frames {
      SumSilent(queue[1..]);
    }
  }

  lemma DrainKeepsExact(w: World, paused: bool)
    requires ExactInv(w)
    ensures ExactInv(World(DrainOne(w.t, paused), ObserveDrain(w.t, w.h)))
  {
    if Prompt(w.h) && w.t.dma.queue != [] {
      CreditIsExact(w);
    }
  }

  lemma {:induction false} SumFull(queue: seq<Done>, frames: nat)
    requires AllFull(queue, frames)
    ensures Sum(queue) == frames * |queue|
  {
    if queue == [] {
    } else {
      SumFull(queue[1..], frames);
      assert frames * |queue| == frames + frames * |queue[1..]|;
    }
  }

  lemma {:induction false} SumAppend(a: seq<Done>, b: seq<Done>)
    ensures Sum(a + b) == Sum(a) + Sum(b)
  {
    if a == [] {
      assert a + b == b;
    } else {
      SumAppend(a[1..], b);
      assert (a + b)[1..] == a[1..] + b;
    }
  }

  /** The buffers before the first short one were full, and the ones after it silent. */
  lemma SumToFirstShort(queue: seq<Done>, frames: nat, pending: nat, i: nat)
    requires SilentAfterShort(queue, frames, pending) && FirstShort(queue, frames, i)
    ensures pending == 0 && Sum(queue) == frames * i + queue[i].played
  {
    SumFull(queue[..i], frames);
    SumSilent(queue[i + 1..]);
    SumAppend(queue[..i], queue[i..]);
    assert queue == queue[..i] + queue[i..];
    assert queue[i..][1..] == queue[i + 1..];
  }

  lemma {:induction false} ShortOrFull(queue: seq<Done>, frames: nat) returns (i: nat)
    requires forall k :: 0 <= k < |queue| ==> queue[k].played <= frames
    ensures i <= |queue| && AllFull(queue[..i], frames)
    ensures if i == |queue| then AllFull(queue, frames) else FirstShort(queue, frames, i)
  {
    if queue == [] || queue[0].played < frames {
      i := 0;
    } else {
      var k := ShortOrFull(queue[1..], frames);
      i := k + 1;
      assert queue[..i] == [queue[0]] + queue[1..][..k];
    }
  }

  /** While handling was prompt the task can tell whether a short buffer is queued. */
  lemma OvertakesIffShort(w: World)
    requires ExactInv(w) && Prompt(w.h)
    ensures Overtakes(w.t) <==> !AllFull(w.t.dma.queue, w.t.format.frames)
  {
    var queue, frames := w.t.dma.queue, w.t.format.frames;
    var i := ShortOrFull(queue, frames);
    if i < |queue| {
      SumToFirstShort(queue, frames, w.t.dma.pending, i);
      BelowFull(frames, i, |queue|);
    } else {
      SumFull(queue, frames);
    }
  }

  lemma BelowFull(frames: nat, i: nat, n: nat)
    requires i < n
    ensures frames * i + frames <= frames * n
  {
    var more: nat := n - i - 1;
    assert n == i + 1 + more;
    assert frames * (i + 1 + more) == frames * i + frames + frames * more;
    assert frames * more >= 0;
  }

  lemma WriteKeepsExact(w: World, frames: nat)
    requires BookInv(w) && ExactInv(w) && w.t.pc == Writing && Accepts(w.t, frames)
    ensures ExactInv(World(WriteDma(w.t, frames), ObserveWrite(w.t, w.h, frames)))
  {
    if w.t.buffer == [] {
    } else if !w.t.underflow {
      if Prompt(w.h) {
        OvertakesIffShort(w);
      }
    } else if frames == 0 {
    }
  }

  lemma ExactKeeps(w: World, s: Step)
    requires BookInv(w) && BoundInv(w.t) && ExactInv(w) && Enabled(w.t, s)
    ensures ExactInv(World(Next(w.t, s), Observe(w, s)))
  {
    match s
    case Interrupt => InterruptKeepsExact(w);
    case CommandStop =>
    case CommandFinish =>
    case Loop(exits) =>
    case Drain(paused) => DrainKeepsExact(w, paused);
    case Read(raw, gain) =>
    case Write(frames) => WriteKeepsExact(w, frames);
  }

  // ---------------------------------------------------------------- overtaken reports

  /** The reports the queued events would get are what their buffers held. */
  predicate QueuedExact(queue: seq<Done>, frames: nat, credits: nat)
    decreases |queue|
  {
    queue == [] ||
    (Min(frames, credits) == queue[0].played && QueuedExact(queue[1..], frames, credits - Min(frames, credits)))
  }

  /** Every report made, and every one the events in the queue call for, is right. */
  predicate ReportsExact(w: World) {
    w.h.exact && QueuedExact(w.t.dma.queue, w.t.format.frames, w.t.framesWritten)
  }

  /** The first short buffer in the queue will be credited with more than it held. */
  predicate Late(queue: seq<Done>, frames: nat, credits: nat, i: nat) {
    FirstShort(queue, frames, i) && credits > frames * i + queue[i].played
  }

  ghost predicate Doomed(w: World) {
    !w.h.exact || exists i: nat :: Late(w.t.dma.queue, w.t.format.frames, w.t.framesWritten, i)
  }

  lemma LateDrained(queue: seq<Done>, frames: nat, credits: nat, i: nat)
    requires Late(queue, frames, credits, i) && i > 0
    ensures queue[0].played == frames <= credits && Late(queue[1..], frames, credits - frames, i - 1)
  {
    assert queue[..i][0] == queue[0];
    assert queue[1..][..i - 1] == queue[..i][1..];
    assert frames * i == frames * (i - 1) + frames;
  }

  lemma {:induction false} LateIsWrong(queue: seq<Done>, frames: nat, credits: nat, i: nat)
    requires Late(queue, frames, credits, i)
    ensures !QueuedExact(queue, frames, credits)
    decreases i
  {
    if i == 0 {
    } else {
      LateDrained(queue, frames, credits, i);
      LateIsWrong(queue[1..], frames, credits - frames, i - 1);
    }
  }

  /** Under prompt handling the queue is due exactly what its buffers held. */
  lemma {:induction false} SilentQueueIsExact(queue: seq<Done>, frames: nat, pending: nat)
    requires SilentAfterShort(queue, frames, pending)
    ensures QueuedExact(queue, frames, pending + Sum(queue))
    decreases |queue|
  {
    if queue == [] {
    } else {
      if queue[0].played < frames {
        SumSilent(queue[1..]);
      }
      SilentQueueIsExact(queue[1..], frames, pending);
    }
  }

  ghost predicate DoomInv(w: World) {
    !w.h.lost && w.h.overtook ==> Doomed(w)
  }

  lemma InterruptKeepsDoom(w: World)
    requires DoomInv(w)
    ensures DoomInv(World(OnInterrupt(w.t), ObserveInterrupt(w.t, w.h)))
  {
    var u, h := OnInterrupt(w.t), ObserveInterrupt(w.t, w.h);
    var queue, frames := w.t.dma.queue, w.t.format.frames;
    if !h.lost && h.overtook && h.exact {
      var i: nat :| Late(queue, frames, w.t.framesWritten, i);
      assert u.dma.queue[..i] == queue[..i];
      assert Late(u.dma.queue, frames, u.framesWritten, i);
    }
  }

  lemma DrainKeepsDoom(w: World, paused: bool)
    requires DoomInv(w)
    ensures DoomInv(World(DrainOne(w.t, paused), ObserveDrain(w.t, w.h)))
  {
    var u, h := DrainOne(w.t, paused), ObserveDrain(w.t, w.h);
    var queue, frames := w.t.dma.queue, w.t.format.frames;
    if !h.lost && h.overtook && h.exact {
      var i: nat :| Late(queue, frames, w.t.framesWritten, i);
      if i > 0 {
        LateDrained(queue, frames, w.t.framesWritten, i);
        assert Late(u.dma.queue, frames, u.framesWritten, i - 1);
      }
    }
  }

  /** The first write past the credits of the queue puts its first short buffer in the wrong. */
  lemma OvertakingDooms(w: World, frames: nat)
    requires ExactInv(w) && Prompt(w.h) && Overtakes(w.t) && Enabled(w.t, Write(frames))
    requires frames > 0 && w.t.buffer != [] && !w.t.underflow
    ensures Doomed(World(WriteDma(w.t, frames), ObserveWrite(w.t, w.h, frames)))
  {
    var queue, size := w.t.dma.queue, w.t.format.frames;
    OvertakesIffShort(w);
    var i := ShortOrFull(queue, size);
    SumToFirstShort(queue, size, w.t.dma.pending, i);
    assert Late(queue, size, w.t.framesWritten + frames, i);
  }

  lemma WriteKeepsDoom(w: World, frames: nat)
    requires BookInv(w) && ExactInv(w) && DoomInv(w) && Enabled(w.t, Write(frames))
    ensures DoomInv(World(WriteDma(w.t, frames), ObserveWrite(w.t, w.h, frames)))
  {
    var u, h := WriteDma(w.t, frames), ObserveWrite(w.t, w.h, frames);
    if !h.lost && h.overtook && h.exact {
      if !w.h.overtook {
        OvertakingDooms(w, frames);
      } else {
        var i: nat :| Late(w.t.dma.queue, w.t.format.frames, w.t.framesWritten, i);
        assert !w.t.underflow;
        assert Late(u.dma.queue, u.format.frames, u.framesWritten, i);
      }
    }
  }

  lemma DoomKeeps(w: World, s: Step)
    requires BookInv(w) && ExactInv(w) && DoomInv(w) && Enabled(w.t, s)
    ensures DoomInv(World(Next(w.t, s), Observe(w, s)))
  {
    match s
    case Interrupt => InterruptKeepsDoom(w);
    case CommandStop =>
    case CommandFinish =>
    case Loop(exits) =>
    case Drain(paused) => DrainKeepsDoom(w, paused);
    case Read(raw, gain) =>
    case Write(frames) => WriteKeepsDoom(w, frames);
  }

  // ---------------------------------------------------------------- runs

  ghost predicate Inv(w: World) {
    BookInv(w) && StreamInv(w) && BoundInv(w.t) && ExactInv(w) && DoomInv(w)
  }

  lemma {:induction false} RunKeeps(w: World, steps: seq<Step>, last: World)
    requires Inv(w) && Run(w, steps, last)
    ensures Inv(last)
    decreases |steps|
  {
    if steps == [] {
    } else {
      var s := steps[0];
      BookKeeps(w, s);
      StreamKeeps(w, s);
      BoundKeeps(w.t, s);
      ExactKeeps(w, s);
      DoomKeeps(w, s);
      RunKeeps(World(Next(w.t, s), Observe(w, s)), steps[1..], last);
    }
  }

  // ---------------------------------------------------------------- theorems

  /** At every point of every run: accepted frames are the reported ones plus the credits
      outstanding; an underflow leaves no credit, so nothing owed is lost when the event
      queue is reset; and the credits stay far from 32-bit wrap-around. */
  lemma FramesAreConserved(w0: World, steps: seq<Step>, w: World)
    requires Boot(w0) && Run(w0, steps, w)
    ensures w.h.accepted == w.h.reported + w.t.framesWritten
    ensures w.t.underflow ==> w.t.framesWritten == 0 && Credit(w.t) == 0
    ensures w.t.framesWritten <= 13 * w.t.format.frames
  {
    RunKeeps(w0, steps, w);
  }

  /** What a sample read with `gain` must look like in its slot: scaled once, and moved to the
      upper half of the slot if that is twice as wide. */
  ghost predicate InSlot(x: int, raw: Sample, gain: Sample -> Sample, expand: bool) {
    x == if expand then gain(raw) * 65536 else gain(raw)
  }

  /** What the DMA was given is the source stream, in order, each sample scaled once by the gain
      it was read with and then widened; the rest waits in the buffer, scaled and not widened. */
  lemma StreamIsPreserved(w0: World, steps: seq<Step>, w: World)
    requires Boot(w0) && Run(w0, steps, w)
    ensures |w.h.raws| == |w.h.gains| == |w.h.slots| + |w.t.buffer| && |w.h.slots| == w.h.accepted * w.t.format.channels
    ensures forall i :: 0 <= i < |w.h.slots| ==>
              InSlot(w.h.slots[i], w.h.raws[i], w.h.gains[i], w.t.format.expand)
    ensures forall i :: |w.h.slots| <= i < |w.h.raws| ==>
              InSlot(w.t.buffer[i - |w.h.slots|], w.h.raws[i], w.h.gains[i], false)
    ensures |w.t.buffer| <= w.t.format.frames * w.t.format.channels
  {
    RunKeeps(w0, steps, w);
    StreamPointwise(w);
  }

  lemma StreamPointwise(w: World)
    requires StreamInv(w)
    ensures |w.h.raws| == |w.h.gains| == |w.h.slots| + |w.t.buffer|
    ensures forall i :: 0 <= i < |w.h.slots| ==>
              InSlot(w.h.slots[i], w.h.raws[i], w.h.gains[i], w.t.format.expand)
    ensures forall i :: |w.h.slots| <= i < |w.h.raws| ==>
              InSlot(w.t.buffer[i - |w.h.slots|], w.h.raws[i], w.h.gains[i], false)
  {
    var all := Slots(w.t.format, w.h.gained);
    assert |all| == |w.h.slots| + |w.t.buffer|;
    forall i | 0 <= i < |w.h.slots|
      ensures InSlot(w.h.slots[i], w.h.raws[i], w.h.gains[i], w.t.format.expand)
    {
      assert w.h.slots[i] == all[i];
    }
    forall i | |w.h.slots| <= i < |w.h.raws|
      ensures InSlot(w.t.buffer[i - |w.h.slots|], w.h.raws[i], w.h.gains[i], false)
    {
      assert Slots(w.t.format, w.t.buffer)[i - |w.h.slots|] == all[i];
      assert w.t.buffer[i - |w.h.slots|] == w.h.gained[i];
    }
  }

  /** A graceful exit means everything taken from the source was accepted and reported. */
  lemma GracefulExitIsComplete(w0: World, steps: seq<Step>, w: World)
    requires Boot(w0) && Run(w0, steps, w) && w.t.pc == Exited(true)
    ensures w.h.slots == Slots(w.t.format, w.h.gained) && w.h.reported == w.h.accepted
    ensures |w.h.slots| == |w.h.raws|
    ensures Prompt(w.h) ==> w.h.played == w.h.accepted
  {
    RunKeeps(w0, steps, w);
    assert Slots(w.t.format, w.t.buffer) == [];
    if Prompt(w.h) {
      assert w.t.dma.pending + Sum(w.t.dma.queue) == 0;
    }
  }

  /** Over every run in which no event was dropped, all reports made and all reports due for
      the events queued are right if and only if no write ever added frames while the credits
      did not cover the queue. */
  lemma ReportsExactIffNeverOvertaken(w0: World, steps: seq<Step>, w: World)
    requires Boot(w0) && Run(w0, steps, w) && !w.h.lost
    ensures ReportsExact(w) <==> !w.h.overtook
  {
    RunKeeps(w0, steps, w);
    if w.h.overtook {
      if w.h.exact {
        var i: nat :| Late(w.t.dma.queue, w.t.format.frames, w.t.framesWritten, i);
        LateIsWrong(w.t.dma.queue, w.t.format.frames, w.t.framesWritten, i);
      }
    } else {
      SilentQueueIsExact(w.t.dma.queue, w.t.format.frames, w.t.dma.pending);
    }
  }

  /** In such a run no restart discarded audio, and nothing is unaccounted for. */
  lemma PromptReportsAreExact(w0: World, steps: seq<Step>, w: World)
    requires Boot(w0) && Run(w0, steps, w) && Prompt(w.h)
    ensures w.h.exact && w.h.dropped == 0
    ensures w.h.played == w.h.reported + Sum(w.t.dma.queue)
    ensures w.h.accepted == w.h.played + w.t.dma.pending
  {
    RunKeeps(w0, steps, w);
  }

  /** What the next write does to a run that was prompt so far: the credits and the length of
      the queue at that moment decide whether a report will be wrong. The task can read both,
      and its answer stands as long as no interrupt comes before the write itself. */
  lemma OvertakenReportIsWrong(w0: World, steps: seq<Step>, w: World, frames: nat)
    requires Boot(w0) && Run(w0, steps, w) && Prompt(w.h)
    requires Enabled(w.t, Write(frames)) && frames > 0 && w.t.buffer != [] && !w.t.underflow
    ensures ReportsExact(World(Next(w.t, Write(frames)), Observe(w, Write(frames)))) <==> !Overtakes(w.t)
  {
    RunSnoc(w0, steps, w, Write(frames));
    ReportsExactIffNeverOvertaken(
      w0, steps + [Write(frames)], World(Next(w.t, Write(frames)), Observe(w, Write(frames))));
  }

  // ---------------------------------------------------------------- one round of the loop

  /** A round that nothing interrupts: top of the loop, all events, an empty read, and what the
      driver takes. */
  function Round(t: Task, frames: nat): Task
    requires frames * t.format.channels <= |t.buffer|
  {
    DrainedUnderflow(TopOfLoop(t, false));
    WriteDma(DrainAll(TopOfLoop(t, false)).(pc := Writing), frames)
  }

  /** Draining all events leaves an underflow if and only if the credits do not reach for a full
      buffer for each of them, and gives up one buffer for each as far as they do. */
  lemma {:induction false} DrainedUnderflow(t: Task)
    ensures var u := DrainAll(t);
            && u == t.(framesWritten := u.framesWritten, underflow := u.underflow, dma := t.dma.(queue := []))
            && u.framesWritten == t.framesWritten - Min(t.format.frames * |t.dma.queue|, t.framesWritten)
            && (t.dma.queue != [] ==> (u.underflow <==> t.framesWritten < t.format.frames * |t.dma.queue|))
            && (t.dma.queue == [] ==> u.underflow == t.underflow)
    decreases |t.dma.queue|
  {
    if t.dma.queue == [] {
    } else {
      var f, n := t.format.frames, |t.dma.queue|;
      var v := DrainOne(t, false);
      DrainedUnderflow(v);
      Times(f, n);
      assert v.framesWritten == t.framesWritten - Min(f, t.framesWritten);
      assert DrainAll(t) == DrainAll(v) && |v.dma.queue| == n - 1;
      assert n == 1 ==> v.dma.queue == [];
    }
  }

  lemma Times(f: nat, n: nat)
    requires n > 0
    ensures f * n == f * (n - 1) + f && f * (n - 1) >= 0
  {
  }

  /** A stop command ends the task at the top of its loop, whatever else is pending, and so
      does a timeout or a changed stream; neither counts as graceful. */
  lemma StopEndsTask(t: Task, exits: bool)
    requires t.pc == Top
    ensures Next(Next(t, CommandStop), Loop(exits)).pc == Exited(false)
    ensures Next(t, Loop(true)).pc == Exited(false)
    ensures Next(t, Loop(false)).pc == if t.stopBit then Exited(false) else Draining
  {
  }

  /** A paused task settles its events and takes nothing from the source. */
  lemma PausedTaskWaits(t: Task, paused: bool)
    requires t.pc == Draining
    ensures t.dma.queue == [] ==> Next(t, Drain(paused)) == t.(pc := if paused then Top else Reading)
    ensures t.dma.queue != [] ==>
              var u := Next(t, Drain(paused)); u.pc == Draining && u.dma.queue == t.dma.queue[1..] && u.buffer == t.buffer
  {
  }

  /** The driver has four buffers: what is pending never exceeds them, and whatever whole frames
      still fit may be taken. */
  lemma DriverRoom(w0: World, steps: seq<Step>, w: World, frames: nat)
    requires Boot(w0) && Run(w0, steps, w)
    ensures w.t.dma.pending <= 4 * w.t.format.frames
    ensures w.t.pc == Writing && !w.t.underflow ==>
              (Enabled(w.t, Write(frames)) <==>
                 frames * w.t.format.channels <= |w.t.buffer| && w.t.dma.pending + frames <= 4 * w.t.format.frames)
  {
    RunKeeps(w0, steps, w);
  }

  /** A graceful command to a task whose source has run dry: the round that finds it ends the
      task gracefully if and only if its events show an underflow, and otherwise leaves it
      remembered for the rounds to come; without it the task goes on. */
  lemma GracefulRound(t: Task)
    requires t.pc == Top && t.buffer == [] && !t.stopBit
    ensures var u := Round(t, 0);
            var asked := t.gracefulBit || t.stopGracefully;
            var dry := if t.dma.queue == [] then t.underflow else t.framesWritten < t.format.frames * |t.dma.queue|;
            && u.stopGracefully == asked && !u.gracefulBit && u.buffer == []
            && u.pc == if asked && dry then Exited(true) else Top
    ensures Next(t, CommandFinish) == t.(gracefulBit := true)
  {
    var v := TopOfLoop(t, false);
    assert v == t.(gracefulBit := false, stopGracefully := t.stopGracefully || t.gracefulBit, pc := Draining);
    DrainedUnderflow(v);
  }

  /** With samples waiting the round offers them: on a running channel what is taken is added to
      it; after an underflow the channel is restarted with exactly what is taken, its old events
      forgotten, or left disabled if nothing is. */
  lemma WritingRound(t: Task, frames: nat)
    requires t.pc == Top && t.buffer != [] && !t.stopBit && frames * t.format.channels <= |t.buffer|
    ensures var u := Round(t, frames);
            var dry := if t.dma.queue == [] then t.underflow else t.framesWritten < t.format.frames * |t.dma.queue|;
            && u.pc == Top && u.buffer == t.buffer[frames * t.format.channels..]
            && u.framesWritten == t.framesWritten - Min(t.format.frames * |t.dma.queue|, t.framesWritten) + frames
            && (!dry ==> !u.underflow && u.dma == t.dma.(queue := [], pending := t.dma.pending + frames))
            && (dry && frames > 0 ==> !u.underflow && u.dma == Dma(frames, true, true, []))
            && (dry && frames == 0 ==> u.underflow && u.dma == Dma(0, false, false, []))
  {
    var v := TopOfLoop(t, false);
    assert v == t.(gracefulBit := false, stopGracefully := t.stopGracefully || t.gracefulBit, pc := Draining);
    DrainedUnderflow(v);
    var d := DrainAll(v);
    if !d.underflow {
    } else if frames == 0 {
    }
  }

  /** The interrupt plays one buffer of what is pending and, with a callback, queues one event
      for it, losing the oldest of five and ordering a stop. */
  lemma InterruptPlays(t: Task)
    requires t.dma.enabled
    ensures var u, played := OnInterrupt(t), Min(t.format.frames, t.dma.pending);
            && u.dma.pending == t.dma.pending - played && u.framesWritten == t.framesWritten
            && (!t.dma.callback ==> u.dma.queue == t.dma.queue && u.stopBit == t.stopBit)
            && (t.dma.callback && |t.dma.queue| < 5 ==> u.dma.queue == t.dma.queue + [Done(played)] && u.stopBit == t.stopBit)
            && (t.dma.callback && |t.dma.queue| >= 5 ==> u.dma.queue == t.dma.queue[1..] + [Done(played)] && u.stopBit)
  {
  }

  // ---------------------------------------------------------------- reachable states

  ghost predicate Reachable(w: World) {
    exists w0, steps :: Boot(w0) && Run(w0, steps, w)
  }

  lemma {:induction false} RunSnoc(w: World, steps: seq<Step>, last: World, s: Step)
    requires Run(w, steps, last) && Enabled(last.t, s)
    ensures Run(w, steps + [s], World(Next(last.t, s), Observe(last, s)))
    decreases |steps|
  {
    var end := World(Next(last.t, s), Observe(last, s));
    if steps == [] {
      assert Run(end, [], end);
    } else {
      RunSnoc(World(Next(w.t, steps[0]), Observe(w, steps[0])), steps[1..], last, s);
      assert (steps + [s])[1..] == steps[1..] + [s];
    }
  }

  lemma Reach(w: World, s: Step) returns (v: World)
    requires Reachable(w) && Enabled(w.t, s)
    ensures v == World(Next(w.t, s), Observe(w, s)) && Reachable(v)
  {
    var w0, steps :| Boot(w0) && Run(w0, steps, w);
    RunSnoc(w0, steps, w, s);
    v := World(Next(w.t, s), Observe(w, s));
  }

  lemma ReachNext(w: World, s: Step)
    requires Reachable(w) && Enabled(w.t, s)
    ensures Reachable(World(Next(w.t, s), Observe(w, s)))
  {
    var v := Reach(w, s);
  }

  lemma ReachableKeeps(w: World)
    requires Reachable(w)
    ensures Inv(w)
  {
    var w0, steps :| Boot(w0) && Run(w0, steps, w);
    RunKeeps(w0, steps, w);
  }

  /** One frame read on a channel with two-frame buffers. */
  lemma OneFrameRead() returns (w: World)
    ensures Reachable(w)
    ensures w.t == Task(Format(2, 1, true), Writing, [0], 0, true, false, false, false, Dma(0, true, false, []))
  {
    var t0 := Task(Format(2, 1, true), Top, [], 0, true, false, false, false, Dma(0, true, false, []));
    var w0 := World(t0, History([], [], [], [], 0, 0, 0, 0, false, false, true));
    assert Boot(w0) && Run(w0, [], w0);
    var w1 := Reach(w0, Loop(false));
    assert w1.t == t0.(pc := Draining);
    var w2 := Reach(w1, Drain(false));
    assert w2.t == t0.(pc := Reading);
    w := Reach(w2, Read([0], x => x));
    assert Gained([0], x => x) == [0];
  }

  /** The frame written and playing. */
  lemma OneFrameWritten() returns (w: World)
    ensures Reachable(w)
    ensures w.t.format == Format(2, 1, true) && w.t.pc == Top && w.t.buffer == [] && w.t.framesWritten == 1
    ensures !w.t.underflow && !w.t.stopBit && w.t.dma == Dma(1, true, true, [])
  {
    var r := OneFrameRead();
    w := Reach(r, Write(1));
  }

  /** The race is real: an interrupt between draining and writing is enough. */
  lemma OvertakingHappens() returns (w: World)
    ensures Reachable(w) && !w.h.exact
  {
    var w0 := OneFrameWritten();
    var w1 := Reach(w0, Loop(false));
    var w2 := Reach(w1, Drain(false));
    var w3 := Reach(w2, Interrupt);
    assert w3.t.dma == Dma(0, true, true, [Done(1)]);
    var w4 := Reach(w3, Read([0, 0], x => x));
    assert w4.t.buffer == [0, 0];
    var w5 := Reach(w4, Write(2));
    assert w5.t.framesWritten == 3 && w5.t.dma.queue == [Done(1)];
    var w6 := Reach(w5, Loop(false));
    w := Reach(w6, Drain(false));
  }
}
