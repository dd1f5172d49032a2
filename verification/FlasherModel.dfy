/** The XMOS flasher as a step function: `XMOSFlasher::loop` with everything it calls, the
    NOR chip behind it and the bus-mode flag of the Satellite1 link. Every outcome the
    hardware or a foreign component decides is a field of the `Oracle` of that pass. */
module FlasherModel {
  import opened Words

  const PAGE_SIZE := 256
  const SECTOR_SIZE := 4096
  const FLASH_SIZE := 8388608
  const TOTAL_SECTORS := 2048
  const MD5_SIZE := 32
  const ERASED: bv8 := 0xFF

  type Byte = bv8
  type Page = p: seq<Byte> | |p| == PAGE_SIZE witness Fill(0, PAGE_SIZE)
  type Memory = m: seq<Byte> | |m| == FLASH_SIZE ghost witness Fill(0xFF, FLASH_SIZE)

  function Fill(b: Byte, n: nat): (r: seq<Byte>)
    ensures |r| == n && forall i :: 0 <= i < n ==> r[i] == b
  {
    seq(n, _ => b)
  }

  /** `m` with `cells` stored at `at`. */
  function Patch(m: Memory, at: nat, cells: seq<Byte>): (r: Memory)
    requires at + |cells| <= FLASH_SIZE
    ensures forall i :: 0 <= i < FLASH_SIZE ==> r[i] == if at <= i < at + |cells| then cells[i - at] else m[i]
  {
    m[..at] + cells + m[at + |cells|..]
  }

  /** The chip decodes addresses modulo its size. */
  function SectorBase(sector: nat): (at: nat)
    ensures at + SECTOR_SIZE <= FLASH_SIZE
    ensures sector < TOTAL_SECTORS ==> at == sector * SECTOR_SIZE
  {
    sector % TOTAL_SECTORS * SECTOR_SIZE
  }

  function PageBase(addr: nat): (at: nat)
    ensures at + PAGE_SIZE <= FLASH_SIZE
    ensures addr % PAGE_SIZE == 0 && addr < FLASH_SIZE ==> at == addr
  {
    addr / PAGE_SIZE % (FLASH_SIZE / PAGE_SIZE) * PAGE_SIZE
  }

  function PageAt(m: Memory, addr: nat): Page {
    m[PageBase(addr)..PageBase(addr) + PAGE_SIZE]
  }

  /** NOR programming can only clear bits. */
  function Programmed(before: Page, data: Page): Page {
    seq(PAGE_SIZE, i requires 0 <= i < PAGE_SIZE => before[i] & data[i])
  }

  // ---------------------------------------------------------------- entities

  datatype Phase = Idle | Initializing | Erasing | Flashing | Success | Error
  datatype Action = FullErase | FlashRemote | FlashEmbedded
  datatype FlasherError =
    | NoError | InitReaderError | InitFlashError | WriteToFlashError | Md5MismatchError
    | Md5Invalid | BadUrl | ConnectionError | NoEmbeddedImageError

  /** `pending` is the sector whose erase the chip has accepted and not yet finished. */
  datatype Chip = Chip(cells: Memory, pending: Option<nat>)

  datatype LinkState = Detached | XmosConnected | FlashConnected
  datatype Link = Link(state: LinkState, direct: bool, attempts: nat)

  datatype Reader = NoReader | EmbeddedReader(pos: nat) | RemoteReader

  /** Counters of the running action; `received` is what `md5_receive_` has been fed. */
  datatype Job = Job(
    totalSectors: nat, currentSector: int,
    totalBytes: nat, bytesRemaining: nat, pagePos: nat, received: seq<Byte>)

  /** Fixed at build time: the embedded image, its digest, and MD5 itself. */
  datatype Config = Config(image: seq<Byte>, imageMd5: string, md5: seq<Byte> -> string)

  datatype Flasher = Flasher(
    config: Config, phase: Phase, action: Action, error: FlasherError,
    chip: Chip, link: Link, reader: Reader, buffers: bool, job: Job,
    expectedMd5: string, report: Report)

  /** `flashing_progress_` and the time it was last set. */
  datatype Report = Report(progress: nat, lastPublished: nat)

  /** What one erasing or flashing step leaves behind, and the number it returns. */
  datatype Stepped = Stepped(chip: Chip, job: Job, reader: Reader, error: FlasherError, remaining: int)

  /** One call of `write_page_`: what it returned, what the addressed page then held, and
      what a read-back returns when the chip is not on the bus. */
  datatype WriteOutcome = WriteOutcome(reported: bool, cells: Page, stray: Page)

  datatype Oracle = Oracle(
    now: nat,
    readerOk: bool, remoteSize: nat, malloc1: bool, malloc2: bool,
    busy: bool, writeEnabled: bool, disturbed: seq<Byte>,
    remoteBlock: Option<seq<Byte>>, first: WriteOutcome, second: WriteOutcome)

  type Digest = s: string | |s| == MD5_SIZE witness seq(MD5_SIZE, _ => '0')

  /** `http_get_md5_`: it fails without touching the expected digest, or it fills 32
      characters and succeeds only if its last read delivered all of them. */
  datatype Fetch = NotFetched | ShortRead(left: Digest) | Fetched(digest: Digest)

  datatype Event =
    | Pass(o: Oracle)
    | RequestErase
    | RequestRemote(urlEmpty: bool, fetched: Fetch)
    | RequestEmbedded
    | SetMd5(md5: string)
    | Probe
    | LinkPass(due: bool, found: bool)

  // ---------------------------------------------------------------- the link

  const MAX_CONNECTION_ATTEMPTS := 3

  function SetDirect(l: Link, enable: bool): Link {
    if enable then Link(FlashConnected, true, l.attempts)
    else if l.direct then Link(Detached, false, 0)
    else l
  }

  /** `Satellite1::loop`: `due` says the second since the last attempt is over, `found`
      what `check_for_xmos_` answers if it is asked. */
  function LinkLoop(l: Link, due: bool, found: bool): Link {
    if l.state == Detached && l.attempts <= MAX_CONNECTION_ATTEMPTS && due then
      if l.attempts < MAX_CONNECTION_ATTEMPTS && found then Link(XmosConnected, l.direct, 1)
      else l.(attempts := l.attempts + 1)
    else l
  }

  /** `Satellite1::transfer` answers false without touching the bus. */
  predicate TransferRefused(l: Link) {
    l.direct
  }

  // ---------------------------------------------------------------- starting and ending

  function PagesFor(bytes: nat): nat {
    (bytes + PAGE_SIZE - 1) / PAGE_SIZE
  }

  function SectorsFor(bytes: nat): nat {
    (PagesFor(bytes) * PAGE_SIZE + SECTOR_SIZE - 1) / SECTOR_SIZE
  }

  function ReaderFor(a: Action): Reader {
    if a == FlashEmbedded then EmbeddedReader(0) else RemoteReader
  }

  function FreshJob(size: nat): Job {
    Job(SectorsFor(size), -1, size, size, 0, [])
  }

  function InitFlashing(f: Flasher, o: Oracle): (Flasher, bool) {
    var g := f.(link := SetDirect(f.link, true));
    if f.action == FullErase then
      (g.(job := f.job.(totalSectors := TOTAL_SECTORS, currentSector := -1)), true)
    else InitImage(g, o)
  }

  function InitImage(f: Flasher, o: Oracle): (Flasher, bool) {
    var g := f.(reader := ReaderFor(f.action));
    if f.action == FlashRemote && !o.readerOk then (g.(error := InitReaderError), false)
    else if !o.malloc1 || !o.malloc2 then (g.(buffers := f.buffers || o.malloc1, error := InitFlashError), false)
    else
      var size := if f.action == FlashEmbedded then |f.config.image| else o.remoteSize;
      (g.(buffers := true, report := f.report.(progress := 0), job := FreshJob(size)), true)
  }

  function DeinitFlashing(f: Flasher): Flasher {
    f.(reader := NoReader, buffers := false, expectedMd5 := "", link := SetDirect(f.link, false))
  }

  function Apply(f: Flasher, s: Stepped, r: Report): Flasher {
    f.(chip := s.chip, job := s.job, reader := s.reader, error := s.error, report := r)
  }

  // ---------------------------------------------------------------- erasing

  /** A status read that shows the busy bit clear: a pending erase has finished. */
  function Settle(c: Chip): Chip {
    match c.pending
    case None => c
    case Some(k) => Chip(Patch(c.cells, SectorBase(k), Fill(ERASED, SECTOR_SIZE)), None)
  }

  /** An accepted erase command: until it finishes the sector holds anything. */
  function StartErase(c: Chip, sector: nat, disturbed: seq<Byte>): Chip {
    Chip(if |disturbed| == SECTOR_SIZE then Patch(c.cells, SectorBase(sector), disturbed) else c.cells,
         Some(sector))
  }

  function ErasingStep(f: Flasher, o: Oracle): Stepped {
    if o.busy then Stepped(f.chip, f.job, f.reader, f.error, f.job.totalSectors - f.job.currentSector)
    else
      var job := f.job.(currentSector := f.job.currentSector + 1);
      var left := job.totalSectors - job.currentSector;
      if 0 <= job.currentSector < job.totalSectors then
        if !o.writeEnabled then Stepped(Settle(f.chip), job, f.reader, WriteToFlashError, -1)
        else if !f.link.direct then Stepped(Settle(f.chip), job, f.reader, f.error, left)
        else Stepped(StartErase(Settle(f.chip), job.currentSector, o.disturbed), job, f.reader, f.error, left)
      else Stepped(Settle(f.chip), job, f.reader, f.error, left)
  }

  // ---------------------------------------------------------------- flashing

  /** `read_image_block` into a page-sized buffer; `None` is a negative return value. */
  function ReadBlock(f: Flasher, o: Oracle): (r: (Option<seq<Byte>>, Reader))
    ensures r.0.Some? ==> |r.0.value| <= PAGE_SIZE
  {
    match f.reader
    case NoReader => (None, NoReader)
    case RemoteReader =>
      (if o.remoteBlock.Some? && |o.remoteBlock.value| <= PAGE_SIZE then o.remoteBlock else None, RemoteReader)
    case EmbeddedReader(pos) =>
      var image := f.config.image;
      if pos > |image| then (None, f.reader)
      else
        var n := if |image| - pos >= PAGE_SIZE then PAGE_SIZE else |image| - pos;
        (Some(image[pos..pos + n]), EmbeddedReader(pos + n))
  }

  function Pad(block: seq<Byte>): Page
    requires |block| <= PAGE_SIZE
  {
    block + Fill(0, PAGE_SIZE - |block|)
  }

  /** Page commands reach the chip: the bus is switched to it and the address is aligned. */
  predicate OnChip(direct: bool, addr: nat) {
    direct && addr % PAGE_SIZE == 0
  }

  function WritePage(c: Chip, onChip: bool, addr: nat, w: WriteOutcome): Chip {
    if onChip then c.(cells := Patch(c.cells, PageBase(addr), w.cells)) else c
  }

  function ReadBack(c: Chip, onChip: bool, addr: nat, w: WriteOutcome): Page {
    if onChip then PageAt(c.cells, addr) else w.stray
  }

  /** Write, read back, retry once; true when the page verified. */
  function StorePage(c: Chip, onChip: bool, addr: nat, page: Page, o: Oracle): (Chip, bool) {
    var c1 := WritePage(c, onChip, addr, o.first);
    if ReadBack(c1, onChip, addr, o.first) == page then (c1, true)
    else
      var c2 := WritePage(c1, onChip, addr, o.second);
      (c2, o.second.reported && ReadBack(c2, onChip, addr, o.second) == page)
  }

  /** `strncmp(a, b, 32) == 0` on strings without NUL characters. */
  predicate SameDigest(a: string, b: string) {
    (if |a| > MD5_SIZE then a[..MD5_SIZE] else a) == (if |b| > MD5_SIZE then b[..MD5_SIZE] else b)
  }

  /** A `size_t` returned as an `int`. */
  function SignedInt(x: nat): int {
    if x < U32_MOD / 2 then x else x - U32_MOD
  }

  /** The rest of a flashing step once a block has arrived: `stored` is what `StorePage`
      leaves and answers, if the step gets that far. */
  function CommitBlock(f: Flasher, block: seq<Byte>, reader: Reader, stored: (Chip, bool)): Stepped {
    var left := (f.job.bytesRemaining - |block|) % U32_MOD;
    var job := f.job.(received := f.job.received + block, bytesRemaining := left);
    if |block| != PAGE_SIZE && left != 0 then Stepped(f.chip, job, reader, ConnectionError, -1)
    else if !stored.1 then Stepped(stored.0, job, reader, WriteToFlashError, -1)
    else
      var next := job.(pagePos := f.job.pagePos + PAGE_SIZE);
      if left == 0 && !SameDigest(f.config.md5(job.received), f.expectedMd5) then
        Stepped(stored.0, next, reader, Md5MismatchError, -1)
      else Stepped(stored.0, next, reader, f.error, SignedInt(left))
  }

  function FlashingStep(f: Flasher, o: Oracle): Stepped {
    var (block, reader) := ReadBlock(f, o);
    if block.None? then Stepped(f.chip, f.job, reader, ConnectionError, -1)
    else
      CommitBlock(f, block.value, reader,
                  StorePage(f.chip, OnChip(f.link.direct, f.job.pagePos), f.job.pagePos, Pad(block.value), o))
  }

  // ---------------------------------------------------------------- progress

  /** Numerator and denominator of the percentage, in 32-bit unsigned arithmetic. */
  function PercentOf(a: Action, j: Job): (nat, nat) {
    if a == FullErase then (j.currentSector * 100 % U32_MOD, j.totalSectors % U32_MOD)
    else ((j.currentSector + j.totalBytes - j.bytesRemaining) % U32_MOD * 100 % U32_MOD,
          (j.totalBytes + j.totalSectors) % U32_MOD)
  }

  /** The value assigned to `flashing_progress_`, cut to 8 bits; `None` where the code
      divides by zero. */
  function Percent(a: Action, j: Job): Option<nat> {
    var (num, den) := PercentOf(a, j);
    if den == 0 then None else Some(num / den % U8_MOD)
  }

  predicate ProgressDue(r: Report, now: nat) {
    Elapsed(now, r.lastPublished) > 1000
  }

  function PublishProgress(r: Report, a: Action, j: Job, now: nat): Report {
    if ProgressDue(r, now) then
      var p := Percent(a, j);
      Report(if p.Some? then p.value else r.progress, now)
    else r
  }

  // ---------------------------------------------------------------- steps

  /** The rest of an erasing pass, once `erasing_step_` has returned and `r` was published. */
  function EraseTail(f: Flasher, s: Stepped, r: Report): Flasher {
    var g := Apply(f, s, r);
    if s.remaining == 0 && f.action == FullErase then DeinitFlashing(g).(phase := Success)
    else if s.remaining == 0 then g.(phase := Flashing)
    else if s.remaining < 0 then g.(phase := Error)
    else g
  }

  /** The rest of a flashing pass, once `flashing_step_` has returned and `r` was published. */
  function FlashTail(f: Flasher, s: Stepped, r: Report): Flasher {
    var g := Apply(f, s, r);
    if s.remaining == 0 then DeinitFlashing(g).(phase := Success)
    else if s.remaining < 0 then DeinitFlashing(g).(phase := Error)
    else g
  }

  function LoopPass(f: Flasher, o: Oracle): Flasher {
    match f.phase
    case Idle => f
    case Initializing =>
      var (g, ok) := InitFlashing(f, o);
      if ok then g.(phase := Erasing) else DeinitFlashing(g).(phase := Error)
    case Erasing =>
      var s := ErasingStep(f, o);
      EraseTail(f, s, PublishProgress(f.report, f.action, s.job, o.now))
    case Flashing =>
      var s := FlashingStep(f, o);
      FlashTail(f, s, PublishProgress(f.report, f.action, s.job, o.now))
    case Success => f.(phase := Idle)
    case Error => f.(phase := Idle)
  }

  /** A failed download leaves whatever it had filled in as the expected digest. */
  function RemoteRequested(f: Flasher, urlEmpty: bool, fetched: Fetch): Flasher {
    if f.phase != Idle then f
    else if urlEmpty then f.(error := BadUrl, phase := Error)
    else if f.expectedMd5 != "" then f.(action := FlashRemote, phase := Initializing)
    else
      match fetched
      case NotFetched => f.(error := Md5Invalid, phase := Error)
      case ShortRead(left) => f.(expectedMd5 := left, error := Md5Invalid, phase := Error)
      case Fetched(digest) => f.(expectedMd5 := digest, action := FlashRemote, phase := Initializing)
  }

  function EmbeddedRequested(f: Flasher): Flasher {
    if f.phase != Idle then f
    else if |f.config.image| == 0 then f.(error := NoEmbeddedImageError, phase := Error)
    else f.(expectedMd5 := f.config.imageMd5, action := FlashEmbedded, phase := Initializing)
  }

  function EraseRequested(f: Flasher): Flasher {
    if f.phase != Idle then f else f.(action := FullErase, phase := Initializing)
  }

  /** `flash_accessible()` switches the bus mode on and off again, whatever the phase. */
  function Probed(f: Flasher): Flasher {
    f.(link := SetDirect(SetDirect(f.link, true), false))
  }

  function Step(f: Flasher, e: Event): Flasher {
    match e
    case Pass(o) => LoopPass(f, o)
    case RequestErase => EraseRequested(f)
    case RequestRemote(urlEmpty, fetched) => RemoteRequested(f, urlEmpty, fetched)
    case RequestEmbedded => EmbeddedRequested(f)
    case SetMd5(md5) => f.(expectedMd5 := md5)
    case Probe => Probed(f)
    case LinkPass(due, found) => f.(link := LinkLoop(f.link, due, found))
  }
}
