/** The I2S speaker task: frame credits against DMA completion events, restart on underflow,
    16-to-32-bit expansion, and graceful stop. The task, the interrupt and the DMA hardware
    take turns in atomic steps; the driver may accept any whole-frame prefix. */
module Speaker {
  const DMA_BUFFERS := 4
  const EVENT_QUEUE := 5

  type Sample = x: int | -0x8000 <= x < 0x8000
  type Slot = x: int | -0x8000_0000 <= x < 0x8000_0000

  /** frames: one DMA buffer, in frames; expand: the slot is twice as wide as a sample. */
  datatype Format = Format(frames: nat, channels: nat, expand: bool)

  predicate ValidFormat(c: Format) {
    c.frames > 0 && c.channels > 0
  }

  /** Where the task is in its loop. */
  datatype Pc = Top | Draining | Reading | Writing | Exited(graceful: bool)

  /** A completion event; `played` is how many frames of audio the finished buffer held. */
  datatype Done = Done(played: nat)

  /** pending: frames accepted by the driver and not yet played
      enabled, callback: the channel runs, and reports finished buffers */
  datatype Dma = Dma(pending: nat, enabled: bool, callback: bool, queue: seq<Done>)

  datatype Task = Task(
    format: Format, pc: Pc, buffer: seq<Sample>, framesWritten: nat, underflow: bool,
    stopBit: bool, gracefulBit: bool, stopGracefully: bool, dma: Dma)

  datatype Step =
    | Interrupt
    | CommandStop
    | CommandFinish
    | Loop(exits: bool)
    | Drain(paused: bool)
    | Read(raw: seq<Sample>, gain: Sample -> Sample)
    | Write(frames: nat)

  // ---------------------------------------------------------------- samples

  function Widen(c: Format, x: Sample): Slot {
    if c.expand then x * 0x1_0000 else x
  }

  function Slots(c: Format, xs: seq<Sample>): (r: seq<Slot>)
    ensures |r| == |xs|
  {
    seq(|xs|, i requires 0 <= i < |xs| => Widen(c, xs[i]))
  }

  function Gained(xs: seq<Sample>, gain: Sample -> Sample): (r: seq<Sample>)
    ensures |r| == |xs|
  {
    seq(|xs|, i requires 0 <= i < |xs| => gain(xs[i]))
  }

  // ---------------------------------------------------------------- hardware

  function Min(a: nat, b: nat): nat {
    if a < b then a else b
  }

  /** One DMA buffer has been sent; with a callback registered, an event is queued, the
      oldest one making room if the queue is full. */
  function Finish(d: Dma, frames: nat): Dma {
    var played := Min(frames, d.pending);
    var queue := if !d.callback then d.queue
                 else (if |d.queue| >= EVENT_QUEUE then d.queue[1..] else d.queue) + [Done(played)];
    d.(pending := d.pending - played, queue := queue)
  }

  /** The interrupt handler; a dropped event also commands the task to stop. */
  function OnInterrupt(t: Task): Task {
    if !t.dma.enabled then t
    else
      t.(dma := Finish(t.dma, t.format.frames),
         stopBit := t.stopBit || (t.dma.callback && |t.dma.queue| >= EVENT_QUEUE))
  }

  // ---------------------------------------------------------------- the task

  function TopOfLoop(t: Task, exits: bool): Task {
    if exits then t.(pc := Exited(false))
    else if t.stopBit then t.(stopBit := false, pc := Exited(false))
    else t.(gracefulBit := false, stopGracefully := t.stopGracefully || t.gracefulBit, pc := Draining)
  }

  /** How many frames the task reports for the next event. */
  function Credit(t: Task): nat {
    Min(t.format.frames, t.framesWritten)
  }

  function DrainOne(t: Task, paused: bool): Task {
    if t.dma.queue == [] then t.(pc := if paused then Top else Reading)
    else
      t.(underflow := t.format.frames > t.framesWritten, framesWritten := t.framesWritten - Credit(t),
         dma := t.dma.(queue := t.dma.queue[1..]))
  }

  function ReadSource(t: Task, raw: seq<Sample>, gain: Sample -> Sample): Task {
    t.(buffer := t.buffer + Gained(raw, gain), pc := Writing)
  }

  /** The driver keeps a whole-frame prefix of what it is offered, as far as it has room:
      all buffers when preloading, what is not pending otherwise. */
  predicate Accepts(t: Task, frames: nat) {
    && frames * t.format.channels <= |t.buffer|
    && (if t.underflow then 0 else t.dma.pending) + frames <= DMA_BUFFERS * t.format.frames
  }

  function WriteDma(t: Task, frames: nat): Task
    requires frames * t.format.channels <= |t.buffer|
  {
    if t.buffer == [] then t.(pc := if t.stopGracefully && t.underflow then Exited(true) else Top)
    else
      var u := t.(pc := Top, framesWritten := t.framesWritten + frames, buffer := t.buffer[frames * t.format.channels..]);
      if !t.underflow then u.(dma := t.dma.(pending := t.dma.pending + frames))
      else if frames == 0 then u.(dma := Dma(0, false, false, t.dma.queue))
      else u.(dma := Dma(frames, true, true, []), underflow := false)
  }

  predicate Enabled(t: Task, s: Step) {
    match s
    case Loop(_) => t.pc == Top
    case Drain(_) => t.pc == Draining
    case Read(raw, _) => t.pc == Reading && |t.buffer| + |raw| <= t.format.frames * t.format.channels
    case Write(frames) => t.pc == Writing && Accepts(t, frames)
    case _ => true
  }

  function Next(t: Task, s: Step): Task
    requires Enabled(t, s)
  {
    match s
    case Interrupt => OnInterrupt(t)
    case CommandStop => t.(stopBit := true)
    case CommandFinish => t.(gracefulBit := true)
    case Loop(exits) => TopOfLoop(t, exits)
    case Drain(paused) => DrainOne(t, paused)
    case Read(raw, gain) => ReadSource(t, raw, gain)
    case Write(frames) => WriteDma(t, frames)
  }

  /** Draining until the queue is empty. */
  function DrainAll(t: Task): Task
    decreases |t.dma.queue|
  {
    if t.dma.queue == [] then t else DrainAll(DrainOne(t, false))
  }
}
