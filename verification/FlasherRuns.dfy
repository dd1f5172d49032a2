/** What every run of the flasher keeps. A `World` is the flasher together with what an
    observer has recorded; the theorems quantify over every sequence of events. */
module FlasherRuns {
  import opened Words
  import opened FlasherModel

  /** base:      chip contents when the current action initialised
      erased:    sectors whose erase has finished in the current action
      programs:  pages programmed in the current action
      orderly:   each of them lay in an erased sector, with no erase under way
      published: progress values published after the first erase was issued
      wanted:    the expected digest in force at the last flashing pass
      probed:    flash_accessible() was called since the action initialised
      blinded:   it was called while erasing or flashing
      frozen:    chip contents, a pending erase finished, when it first was
      blindAt:   the page position then, if that was while flashing
      blindFrom: the first sector whose erase had not been issued then, if while erasing
      leaked:    the last action ended in the erase-failure branch
      passes:    loop passes of the current action that were not spent waiting
      faultFree: nothing failed, beyond a write that took when retried, or interfered in the
                 current action */
  datatype History = History(
    base: Memory, erased: set<nat>, programs: nat, orderly: bool, published: seq<nat>,
    wanted: string, probed: bool, blinded: bool,
    frozen: Memory, blindAt: Option<nat>, blindFrom: Option<nat>, leaked: bool, passes: nat, faultFree: bool)

  datatype World = World(f: Flasher, h: History)

  predicate Busy(f: Flasher) {
    f.phase == Erasing || f.phase == Flashing
  }

  /** The pass will program a page: a block arrived and it is a whole page or the last one. */
  predicate Programs(f: Flasher, o: Oracle) {
    && OnChip(f.link.direct, f.job.pagePos)
    && var block := ReadBlock(f, o).0;
    && block.Some?
    && (|block.value| == PAGE_SIZE || (f.job.bytesRemaining - |block.value|) % U32_MOD == 0)
  }

  /** A page write that takes, at the first attempt (the page then holds old AND new) or at the
      second. */
  predicate CleanWrite(f: Flasher, o: Oracle) {
    var block := ReadBlock(f, o).0;
    block.Some? ==>
      || o.first.cells == Programmed(PageAt(f.chip.cells, f.job.pagePos), Pad(block.value))
      || (o.second.reported && o.second.cells == Pad(block.value))
  }

  function LogProgress(w: World, g: Flasher, now: nat): seq<nat> {
    if ProgressDue(w.f.report, now) && g.job.currentSector >= 0 then w.h.published + [g.report.progress] else w.h.published
  }

  function ObserveInit(w: World, o: Oracle, g: Flasher): History {
    w.h.(base := w.f.chip.cells, erased := {}, programs := 0, orderly := true, published := [],
         probed := false, blinded := false, blindAt := None, blindFrom := None,
         leaked := w.h.leaked && g.phase == Erasing, passes := w.h.passes + 1,
         faultFree := w.h.faultFree && o.readerOk && o.malloc1 && o.malloc2)
  }

  function ObserveErase(w: World, o: Oracle, g: Flasher): History {
    var f, h := w.f, w.h;
    h.(erased := if !o.busy && f.chip.pending.Some? then h.erased + {f.chip.pending.value} else h.erased,
       published := LogProgress(w, g, o.now),
       leaked := g.phase == Error || (h.leaked && g.phase != Success),
       passes := if o.busy then h.passes else h.passes + 1,
       faultFree := h.faultFree && (o.busy || o.writeEnabled))
  }

  function ObserveFlash(w: World, o: Oracle, g: Flasher): History {
    var f, h := w.f, w.h;
    h.(programs := if Programs(f, o) then h.programs + 1 else h.programs,
       orderly := h.orderly && (Programs(f, o) ==> f.chip.pending.None? && f.job.pagePos / SECTOR_SIZE in h.erased),
       published := LogProgress(w, g, o.now), wanted := f.expectedMd5,
       leaked := h.leaked && g.phase == Flashing, passes := h.passes + 1,
       faultFree := h.faultFree && CleanWrite(f, o))
  }

  function ObservePass(w: World, o: Oracle): History {
    match w.f.phase
    case Initializing => ObserveInit(w, o, LoopPass(w.f, o))
    case Erasing => ObserveErase(w, o, LoopPass(w.f, o))
    case Flashing => ObserveFlash(w, o, LoopPass(w.f, o))
    case _ => w.h
  }

  function ObserveProbe(w: World): History {
    var h := w.h.(probed := true, faultFree := false);
    if !Busy(w.f) || h.blinded then h
    else
      h.(blinded := true, frozen := Settle(w.f.chip).cells,
         blindAt := if w.f.phase == Flashing then Some(w.f.job.pagePos) else None,
         blindFrom := if w.f.phase == Erasing && w.f.job.currentSector >= -1 then Some(w.f.job.currentSector + 1) else None)
  }

  function Observe(w: World, e: Event): History {
    match e
    case Pass(o) => ObservePass(w, o)
    case Probe => ObserveProbe(w)
    case SetMd5(_) => w.h.(faultFree := false)
    case LinkPass(_, _) => w.h
    case _ =>
      if w.f.phase == Idle then w.h.(passes := 0, faultFree := Step(w.f, e).phase == Initializing) else w.h
  }

  function Next(w: World, e: Event): World {
    World(Step(w.f, e), Observe(w, e))
  }

  /** What the environment is taken to respect: an image fits the chip and a remote reader
      delivers at most what was asked for and at most what the announced length leaves. */
  predicate Admissible(f: Flasher, e: Event) {
    e.Pass? ==>
      && (f.phase == Initializing && f.action == FlashRemote ==> e.o.remoteSize <= FLASH_SIZE)
      && (f.phase == Flashing && f.reader == RemoteReader && e.o.remoteBlock.Some? ==>
            |e.o.remoteBlock.value| <= f.job.bytesRemaining)
  }

  ghost predicate Run(w: World, es: seq<Event>, last: World)
    decreases |es|
  {
    if es == [] then last == w
    else Admissible(w.f, es[0]) && Run(Next(w, es[0]), es[1..], last)
  }

  /** A freshly constructed component: nothing requested, bus released. */
  ghost predicate Boot(w: World) {
    && w.f.phase == Idle && w.f.reader == NoReader && !w.f.buffers && |w.f.config.image| <= FLASH_SIZE
    && w.f.chip.pending == None && w.f.link == Link(Detached, false, 0)
    && w.f.job.currentSector == -1 && w.f.job.totalBytes == 0
    && w.h == History(w.f.chip.cells, {}, 0, true, [], "", false, false, w.f.chip.cells, None, None, false, 0, false)
  }

  // ---------------------------------------------------------------- the invariant

  ghost predicate LinkInv(w: World) {
    && (w.f.link.direct <==> w.f.link.state == FlashConnected)
    && (w.h.blinded ==> w.h.probed)
    && (Busy(w.f) ==> (w.h.blinded <==> w.h.probed) && (w.f.link.direct <==> !w.h.probed))
    && (!Busy(w.f) ==> (w.f.link.direct <==> w.h.leaked && !w.h.probed))
  }

  ghost predicate ResourceInv(w: World) {
    && (!Busy(w.f) && !w.h.leaked ==> w.f.reader == NoReader && !w.f.buffers)
    && (Busy(w.f) && w.f.action != FullErase ==> w.f.reader != NoReader && w.f.buffers)
  }

  ghost predicate SizeInv(f: Flasher) {
    && |f.config.image| <= FLASH_SIZE
    && (f.phase == Flashing ==> f.action != FullErase)
    && (f.phase == Initializing && f.action == FlashEmbedded ==> |f.config.image| > 0)
    && (Busy(f) && f.action == FullErase ==> f.job.totalSectors == TOTAL_SECTORS)
    && (Busy(f) && f.action != FullErase ==>
          && f.job.totalBytes <= FLASH_SIZE && f.job.totalSectors == SectorsFor(f.job.totalBytes)
          && (f.reader == RemoteReader <==> f.action == FlashRemote)
          && |f.job.received| + f.job.bytesRemaining == f.job.totalBytes
          && f.job.pagePos == |f.job.received| && f.job.pagePos % PAGE_SIZE == 0)
    && (f.phase == Erasing ==>
          -1 <= f.job.currentSector && (f.job.currentSector < f.job.totalSectors || f.job.currentSector == -1))
    && (f.phase == Erasing && f.action != FullErase ==> f.job.received == [])
    && (f.phase == Flashing ==> f.job.currentSector == f.job.totalSectors && (f.job.bytesRemaining > 0 || f.job.totalBytes == 0))
    && (Busy(f) && f.action == FlashEmbedded ==>
          && f.reader == EmbeddedReader(|f.job.received|) && f.job.totalBytes == |f.config.image| > 0
          && f.job.received == f.config.image[..|f.job.received|])
  }

  ghost predicate BlankUpTo(m: Memory, from: int, to: int) {
    forall i :: 0 <= i < FLASH_SIZE && from <= i < to ==> m[i] == ERASED
  }

  ghost predicate Stores(m: Memory, bytes: seq<Byte>) {
    forall i :: 0 <= i < |bytes| && i < FLASH_SIZE ==> m[i] == bytes[i]
  }

  ghost predicate SameFrom(m: Memory, n: Memory, from: int) {
    forall i :: 0 <= i < FLASH_SIZE && from <= i ==> m[i] == n[i]
  }

  ghost predicate SameOutside(m: Memory, n: Memory, at: int, size: int) {
    forall i :: 0 <= i < FLASH_SIZE && !(at <= i < at + size) ==> m[i] == n[i]
  }

  ghost predicate ChipInv(w: World) {
    var f, h := w.f, w.h;
    && (f.phase != Erasing ==> f.chip.pending == None)
    && (f.phase == Erasing && f.chip.pending.Some? ==>
          f.chip.pending.value < f.job.totalSectors && f.chip.pending.value <= f.job.currentSector)
    && (f.phase == Erasing && !h.blinded ==>
          && f.chip.pending == (if f.job.currentSector >= 0 then Some(f.job.currentSector) else None)
          && BlankUpTo(f.chip.cells, 0, f.job.currentSector * SECTOR_SIZE))
    && (f.phase == Flashing && !h.blinded ==>
          && Stores(f.chip.cells, f.job.received)
          && BlankUpTo(f.chip.cells, f.job.pagePos, f.job.totalSectors * SECTOR_SIZE))
  }

  /** The chip from `PAGE_SIZE * PagesFor(|image|)` down holds the image and then zeros. */
  ghost predicate Holds(m: Memory, image: seq<Byte>) {
    forall i :: 0 <= i < FLASH_SIZE && i < PagesFor(|image|) * PAGE_SIZE ==>
      m[i] == if i < |image| then image[i] else 0
  }

  ghost predicate Delivered(f: Flasher, h: History) {
    && |f.job.received| == f.job.totalBytes
    && (!h.blinded ==> Holds(f.chip.cells, f.job.received))
    && SameDigest(f.config.md5(f.job.received), h.wanted)
    && (f.action == FlashEmbedded ==> f.job.received == f.config.image)
  }

  ghost predicate SuccessInv(w: World) {
    w.f.phase == Success ==>
      if w.f.action == FullErase then !w.h.blinded ==> BlankUpTo(w.f.chip.cells, 0, FLASH_SIZE)
      else Delivered(w.f, w.h)
  }

  ghost predicate OrderInv(w: World) {
    var f, h := w.f, w.h;
    && (h.orderly <==> h.programs == 0 || f.job.totalBytes > 0)
    && (f.phase == Erasing ==> h.programs == 0)
    && (f.phase == Erasing && !h.blinded ==> forall k: nat :: k in h.erased <==> k < f.job.currentSector)
    && (f.phase == Flashing && !h.blinded ==> forall k: nat :: k in h.erased <==> k < f.job.totalSectors)
    && (f.phase != Initializing && f.action != FullErase && h.orderly ==>
          SameFrom(f.chip.cells, h.base, f.job.totalSectors * SECTOR_SIZE))
  }

  /** From the first probe on nothing reaches the chip. */
  ghost predicate BlindInv(w: World) {
    var f, h := w.f, w.h;
    && (h.blinded && (Busy(f) || f.phase == Success) ==> Settle(f.chip).cells == h.frozen)
    && (f.phase == Erasing ==> h.blindAt == None)
    && (f.phase == Erasing && !h.blinded ==> SameFrom(f.chip.cells, h.base, (f.job.currentSector + 1) * SECTOR_SIZE))
    && (h.blinded && (Busy(f) || f.phase == Success) ==> (h.blindAt.None? <==> h.blindFrom.Some?))
    && (h.blindFrom.Some? && (Busy(f) || f.phase == Success) ==> HalfErased(h.frozen, h.base, h.blindFrom.value))
    && (h.blindAt.Some? && (f.phase == Flashing || f.phase == Success) ==>
          h.blinded && f.action != FullErase && f.job.totalBytes <= FLASH_SIZE && Left(h.frozen, f.job, h.blindAt.value))
  }

  /** Blank up to the sector `from`, and untouched from there on. */
  ghost predicate HalfErased(m: Memory, base: Memory, from: nat) {
    BlankUpTo(m, 0, from * SECTOR_SIZE) && SameFrom(m, base, from * SECTOR_SIZE)
  }

  /** The pages before `at` are in, the rest of the erased sectors is blank. */
  ghost predicate Left(m: Memory, j: Job, at: nat) {
    && at <= |j.received| && Stores(m, j.received[..at])
    && BlankUpTo(m, at, SectorsFor(j.totalBytes) * SECTOR_SIZE)
  }

  ghost predicate Inv(w: World) {
    BlindInv(w) && LinkInv(w) && ResourceInv(w) && SizeInv(w.f) && ChipInv(w) && SuccessInv(w) && OrderInv(w)
  }

  // ---------------------------------------------------------------- arithmetic of sizes

  lemma Sizes(n: nat)
    ensures n <= PagesFor(n) * PAGE_SIZE < n + PAGE_SIZE
    ensures PagesFor(n) * PAGE_SIZE <= SectorsFor(n) * SECTOR_SIZE < PagesFor(n) * PAGE_SIZE + SECTOR_SIZE
    ensures n <= FLASH_SIZE ==> SectorsFor(n) <= TOTAL_SECTORS
    ensures SectorsFor(n) == 0 <==> n == 0
  {
  }

  // ---------------------------------------------------------------- what a step does

  /** A flashing step that did not fail took a block, counted it, verified it on the chip
      and moved one page on. */
  ghost predicate Advanced(f: Flasher, s: Stepped) {
    var had, got := |f.job.received|, |s.job.received|;
    && had <= got <= had + PAGE_SIZE && s.job.received[..had] == f.job.received
    && s.job.bytesRemaining == f.job.bytesRemaining - (got - had) == s.remaining
    && s.job.pagePos == f.job.pagePos + PAGE_SIZE
    && (got == had + PAGE_SIZE || s.remaining == 0)
    && (s.remaining == 0 ==> SameDigest(f.config.md5(s.job.received), f.expectedMd5))
    && (f.action == FlashEmbedded ==> s.reader == EmbeddedReader(got) && got <= |f.config.image|
                                      && s.job.received == f.config.image[..got])
    && (f.action == FlashRemote ==> s.reader == RemoteReader)
    && (f.link.direct ==> forall i :: had <= i < had + PAGE_SIZE && i < FLASH_SIZE ==>
          s.chip.cells[i] == if i < got then s.job.received[i] else 0)
  }

  ghost predicate FlashOutcome(f: Flasher, s: Stepped) {
    && s.chip.pending == f.chip.pending
    && s.job.totalBytes == f.job.totalBytes && s.job.totalSectors == f.job.totalSectors
    && s.job.currentSector == f.job.currentSector && s.job.bytesRemaining <= f.job.bytesRemaining
    && s.reader != NoReader && (!f.link.direct ==> s.chip == f.chip)
    && SameOutside(s.chip.cells, f.chip.cells, f.job.pagePos, PAGE_SIZE)
    && (s.remaining >= 0 ==> Advanced(f, s))
  }

  /** What storing `page` at `addr` may do to the chip. */
  ghost predicate Stored(c: Chip, onChip: bool, addr: nat, page: Page, r: (Chip, bool)) {
    && r.0.pending == c.pending && (!onChip ==> r.0 == c)
    && SameOutside(r.0.cells, c.cells, addr, PAGE_SIZE)
    && (r.1 && onChip ==> forall i :: addr <= i < addr + PAGE_SIZE && i < FLASH_SIZE ==> r.0.cells[i] == page[i - addr])
  }

  lemma StoreOutcome(c: Chip, onChip: bool, addr: nat, page: Page, o: Oracle)
    requires addr % PAGE_SIZE == 0 && addr < FLASH_SIZE
    ensures Stored(c, onChip, addr, page, StorePage(c, onChip, addr, page, o))
  {
    var r := StorePage(c, onChip, addr, page, o);
    if r.1 && onChip {
      assert PageAt(r.0.cells, addr) == page;
    }
  }

  lemma PageOfPatch(m: Memory, addr: nat, page: Page)
    requires addr % PAGE_SIZE == 0 && addr < FLASH_SIZE
    ensures PageAt(Patch(m, PageBase(addr), page), addr) == page
  {
  }

  /** A page on the chip is stored if and only if the first write left the data there, or the
      second reported success and did; the retry happens only if the first did not. */
  lemma StoredIffAWriteTook(c: Chip, addr: nat, page: Page, o: Oracle)
    requires addr % PAGE_SIZE == 0 && addr < FLASH_SIZE
    ensures StorePage(c, true, addr, page, o).1 <==>
              o.first.cells == page || (o.second.reported && o.second.cells == page)
    ensures PageAt(StorePage(c, true, addr, page, o).0.cells, addr) ==
              if o.first.cells == page then page else o.second.cells
  {
    var c1 := WritePage(c, true, addr, o.first);
    PageOfPatch(c.cells, addr, o.first.cells);
    PageOfPatch(c1.cells, addr, o.second.cells);
  }

  /** Blocks arrive in order and never exceed what is left. */
  ghost predicate NextBlock(f: Flasher, block: seq<Byte>, reader: Reader) {
    var got := f.job.received + block;
    && |block| <= PAGE_SIZE && |block| <= f.job.bytesRemaining && reader != NoReader
    && (f.action == FlashEmbedded ==>
          reader == EmbeddedReader(|got|) && |got| <= |f.config.image| && got == f.config.image[..|got|])
    && (f.action == FlashRemote ==> reader == RemoteReader)
  }

  lemma BlockOutcome(f: Flasher, o: Oracle)
    requires SizeInv(f) && f.phase == Flashing && f.reader != NoReader && Admissible(f, Pass(o))
    ensures var (block, reader) := ReadBlock(f, o);
            if block.Some? then NextBlock(f, block.value, reader) else reader != NoReader
  {
  }

  lemma CommitOutcome(f: Flasher, block: seq<Byte>, reader: Reader, stored: (Chip, bool))
    requires SizeInv(f) && f.phase == Flashing && NextBlock(f, block, reader)
    requires Stored(f.chip, f.link.direct, f.job.pagePos, Pad(block), stored)
    ensures FlashOutcome(f, CommitBlock(f, block, reader, stored))
  {
    assert (f.job.received + block)[..|f.job.received|] == f.job.received;
    FitsInWord(f.job.bytesRemaining - |block|);
    if |block| != PAGE_SIZE && |block| != f.job.bytesRemaining {
    } else if !stored.1 {
    } else if |block| == f.job.bytesRemaining {
      if SameDigest(f.config.md5(f.job.received + block), f.expectedMd5) {
      }
    }
  }

  lemma FlashStepOutcome(f: Flasher, o: Oracle)
    requires SizeInv(f) && f.phase == Flashing && f.reader != NoReader && Admissible(f, Pass(o))
    ensures FlashOutcome(f, FlashingStep(f, o))
  {
    var (block, reader) := ReadBlock(f, o);
    BlockOutcome(f, o);
    if block.Some? {
      StoreOutcome(f.chip, f.link.direct, f.job.pagePos, Pad(block.value), o);
      CommitOutcome(f, block.value, reader, StorePage(f.chip, f.link.direct, f.job.pagePos, Pad(block.value), o));
    }
  }

  /** An erasing step that did not wait: the pending erase is over and, unless all sectors
      are done or the command was refused, the next one has been issued. */
  ghost predicate Erased(f: Flasher, o: Oracle, s: Stepped) {
    var next := f.job.currentSector + 1;
    && s.job == f.job.(currentSector := next)
    && (s.remaining == f.job.totalSectors - next || (s.remaining == -1 && next < f.job.totalSectors && !o.writeEnabled))
    && (next < f.job.totalSectors && !o.writeEnabled ==> s.remaining == -1)
    && s.chip.pending ==
         (if f.link.direct && o.writeEnabled && next < f.job.totalSectors then Some(next) else None)
    && (f.chip.pending.Some? ==>
          BlankUpTo(s.chip.cells, f.chip.pending.value * SECTOR_SIZE, (f.chip.pending.value + 1) * SECTOR_SIZE))
    && (forall i :: 0 <= i < FLASH_SIZE && (i / SECTOR_SIZE != next || next >= f.job.totalSectors)
                    && (f.chip.pending.None? || i / SECTOR_SIZE != f.chip.pending.value) ==>
          s.chip.cells[i] == f.chip.cells[i])
  }

  ghost predicate EraseOutcome(f: Flasher, o: Oracle, s: Stepped) {
    && s.reader == f.reader
    && (o.busy ==> s.job == f.job && s.chip == f.chip && s.remaining == f.job.totalSectors - f.job.currentSector)
    && (!o.busy ==> Erased(f, o, s) && (!f.link.direct ==> s.chip == Settle(f.chip)))
  }

  lemma EraseStepOutcome(f: Flasher, o: Oracle)
    requires f.phase == Erasing && f.job.totalSectors <= TOTAL_SECTORS && f.job.currentSector >= -1
    requires f.chip.pending.Some? ==> f.chip.pending.value < f.job.totalSectors && f.chip.pending.value <= f.job.currentSector
    ensures EraseOutcome(f, o, ErasingStep(f, o))
  {
  }

  // ---------------------------------------------------------------- preservation

  lemma EraseKeepsLinks(w: World, o: Oracle, s: Stepped, r: Report)
    requires w.f.phase == Erasing && LinkInv(w) && ResourceInv(w) && s.reader == w.f.reader
    ensures var g := EraseTail(w.f, s, r);
            LinkInv(World(g, ObserveErase(w, o, g))) && ResourceInv(World(g, ObserveErase(w, o, g)))
  {
  }

  lemma FlashKeepsLinks(w: World, o: Oracle, s: Stepped, r: Report)
    requires w.f.phase == Flashing && LinkInv(w) && ResourceInv(w) && FlashOutcome(w.f, s)
    ensures var g := FlashTail(w.f, s, r);
            LinkInv(World(g, ObserveFlash(w, o, g))) && ResourceInv(World(g, ObserveFlash(w, o, g)))
  {
  }

  lemma EraseKeepsBlind(w: World, o: Oracle, s: Stepped, r: Report)
    requires w.f.phase == Erasing && SizeInv(w.f) && LinkInv(w) && BlindInv(w) && ChipInv(w) && EraseOutcome(w.f, o, s)
    ensures var g := EraseTail(w.f, s, r); BlindInv(World(g, ObserveErase(w, o, g)))
  {
    assert w.h.blinded ==> Settle(s.chip) == Settle(w.f.chip);
    if !o.busy && !w.h.blinded {
      EraseLeavesRest(w, o, s);
    }
  }

  lemma EraseLeavesRest(w: World, o: Oracle, s: Stepped)
    requires w.f.phase == Erasing && SizeInv(w.f) && BlindInv(w) && ChipInv(w) && Erased(w.f, o, s) && !w.h.blinded
    ensures SameFrom(s.chip.cells, w.h.base, (s.job.currentSector + 1) * SECTOR_SIZE)
  {
    var next := w.f.job.currentSector + 1;
    forall i | (next + 1) * SECTOR_SIZE <= i < FLASH_SIZE
      ensures s.chip.cells[i] == w.h.base[i]
    {
      assert i / SECTOR_SIZE > next;
    }
  }

  lemma FlashKeepsBlind(w: World, o: Oracle, s: Stepped, r: Report)
    requires w.f.phase == Flashing && LinkInv(w) && BlindInv(w) && FlashOutcome(w.f, s)
    ensures var g := FlashTail(w.f, s, r); BlindInv(World(g, ObserveFlash(w, o, g)))
  {
    if w.h.blindAt.Some? && s.remaining >= 0 {
      var at := w.h.blindAt.value;
      assert s.job.received[..at] == s.job.received[..|w.f.job.received|][..at];
    }
  }

  lemma EraseKeepsSizes(f: Flasher, o: Oracle, s: Stepped, r: Report)
    requires f.phase == Erasing && SizeInv(f) && EraseOutcome(f, o, s)
    ensures SizeInv(EraseTail(f, s, r))
  {
    Sizes(f.job.totalBytes);
  }

  lemma FlashKeepsSizes(f: Flasher, o: Oracle, s: Stepped, r: Report)
    requires f.phase == Flashing && SizeInv(f) && FlashOutcome(f, s)
    ensures SizeInv(FlashTail(f, s, r))
  {
  }

  lemma EraseKeepsChip(w: World, o: Oracle, s: Stepped, r: Report)
    requires w.f.phase == Erasing && SizeInv(w.f) && LinkInv(w) && ChipInv(w) && EraseOutcome(w.f, o, s)
    ensures var g := EraseTail(w.f, s, r);
            ChipInv(World(g, ObserveErase(w, o, g))) && SuccessInv(World(g, ObserveErase(w, o, g)))
  {
    if !o.busy && !w.h.blinded {
      var next := w.f.job.currentSector + 1;
      forall i | 0 <= i < next * SECTOR_SIZE && i < FLASH_SIZE
        ensures s.chip.cells[i] == ERASED
      {
        assert i / SECTOR_SIZE < next;
        if i / SECTOR_SIZE == next - 1 {
          assert (next - 1) * SECTOR_SIZE <= i < next * SECTOR_SIZE;
        }
      }
      assert BlankUpTo(s.chip.cells, 0, next * SECTOR_SIZE);
    }
  }

  lemma EraseKeepsOrder(w: World, o: Oracle, s: Stepped, r: Report)
    requires w.f.phase == Erasing && SizeInv(w.f) && LinkInv(w) && ChipInv(w) && OrderInv(w) && EraseOutcome(w.f, o, s)
    ensures var g := EraseTail(w.f, s, r); OrderInv(World(g, ObserveErase(w, o, g)))
  {
    var from := w.f.job.totalSectors * SECTOR_SIZE;
    if !o.busy && w.f.action != FullErase {
      forall i | from <= i < FLASH_SIZE
        ensures s.chip.cells[i] == w.f.chip.cells[i]
      {
        assert i / SECTOR_SIZE >= w.f.job.totalSectors;
      }
      assert SameFrom(s.chip.cells, w.h.base, from);
    }
  }

  ghost predicate Padded(m: Memory, bytes: seq<Byte>, to: int) {
    forall i :: 0 <= i < FLASH_SIZE && i < to ==> m[i] == if i < |bytes| then bytes[i] else 0
  }

  lemma PageExtends(f: Flasher, s: Stepped)
    requires f.phase == Flashing && SizeInv(f) && FlashOutcome(f, s) && s.remaining >= 0 && f.link.direct
    requires Stores(f.chip.cells, f.job.received)
    requires BlankUpTo(f.chip.cells, f.job.pagePos, f.job.totalSectors * SECTOR_SIZE)
    ensures Padded(s.chip.cells, s.job.received, s.job.pagePos)
    ensures BlankUpTo(s.chip.cells, s.job.pagePos, f.job.totalSectors * SECTOR_SIZE)
  {
    forall i | 0 <= i < f.job.pagePos && i < FLASH_SIZE
      ensures s.chip.cells[i] == s.job.received[i]
    {
      assert s.job.received[i] == s.job.received[..|f.job.received|][i];
    }
  }

  lemma FlashKeepsChip(w: World, o: Oracle, s: Stepped, r: Report)
    requires w.f.phase == Flashing && SizeInv(w.f) && LinkInv(w) && ChipInv(w) && FlashOutcome(w.f, s)
    ensures var g := FlashTail(w.f, s, r); ChipInv(World(g, ObserveFlash(w, o, g)))
  {
    if s.remaining >= 0 && !w.h.blinded {
      PageExtends(w.f, s);
    }
  }

  lemma LastPage(f: Flasher, s: Stepped)
    requires f.phase == Flashing && SizeInv(f) && FlashOutcome(f, s) && s.remaining == 0
    ensures |s.job.received| == f.job.totalBytes
    ensures PagesFor(|s.job.received|) * PAGE_SIZE <= s.job.pagePos
    ensures f.action == FlashEmbedded ==> s.job.received == f.config.image
  {
    Sizes(f.job.totalBytes);
  }

  lemma FlashDelivers(w: World, o: Oracle, s: Stepped, r: Report)
    requires w.f.phase == Flashing && SizeInv(w.f) && LinkInv(w) && ChipInv(w) && FlashOutcome(w.f, s)
    ensures var g := FlashTail(w.f, s, r); SuccessInv(World(g, ObserveFlash(w, o, g)))
  {
    if s.remaining == 0 {
      LastPage(w.f, s);
      if !w.h.blinded {
        PageExtends(w.f, s);
        assert Holds(s.chip.cells, s.job.received);
      }
      var g := FlashTail(w.f, s, r);
      assert g.job == s.job && g.chip == s.chip && g.config == w.f.config && g.action == w.f.action;
    } else if s.remaining < 0 {
    }
  }

  lemma OnlyProgramsChange(f: Flasher, o: Oracle)
    requires !Programs(f, o)
    ensures FlashingStep(f, o).chip == f.chip
  {
  }

  /** The page being programmed lies below the end of the erased sectors. */
  lemma PageInErasedSector(f: Flasher)
    requires f.phase == Flashing && SizeInv(f) && f.job.totalBytes > 0
    ensures f.job.pagePos / SECTOR_SIZE < f.job.totalSectors
    ensures f.job.pagePos + PAGE_SIZE <= f.job.totalSectors * SECTOR_SIZE
  {
    Sizes(f.job.totalBytes);
  }

  lemma FlashKeepsOrder(w: World, o: Oracle, s: Stepped, r: Report)
    requires w.f.phase == Flashing && SizeInv(w.f) && LinkInv(w) && ChipInv(w) && OrderInv(w) && FlashOutcome(w.f, s)
    requires !Programs(w.f, o) ==> s.chip == w.f.chip
    ensures var g := FlashTail(w.f, s, r); OrderInv(World(g, ObserveFlash(w, o, g)))
  {
    Sizes(w.f.job.totalBytes);
    if w.f.job.totalBytes > 0 {
      PageInErasedSector(w.f);
      assert SameFrom(s.chip.cells, w.f.chip.cells, w.f.job.totalSectors * SECTOR_SIZE);
    }
    var g := FlashTail(w.f, s, r);
    var h := ObserveFlash(w, o, g);
    assert h.orderly <==> h.programs == 0 || g.job.totalBytes > 0;
  }

  // ---------------------------------------------------------------- progress

  /** The share of the work done, in plain arithmetic. */
  function Share(a: Action, j: Job): int
    requires Work(a, j) > 0
  {
    Done(a, j) * 100 / Work(a, j)
  }

  function Done(a: Action, j: Job): int {
    if a == FullErase then j.currentSector else j.currentSector + j.totalBytes - j.bytesRemaining
  }

  function Work(a: Action, j: Job): nat {
    if a == FullErase then j.totalSectors else j.totalBytes + j.totalSectors
  }

  predicate InBounds(a: Action, j: Job) {
    && 0 <= j.currentSector <= j.totalSectors <= TOTAL_SECTORS
    && (a != FullErase ==> j.bytesRemaining <= j.totalBytes <= FLASH_SIZE)
  }

  /** The counters before the first erase command. */
  predicate Untouched(a: Action, j: Job) {
    && j.currentSector == -1 && j.totalSectors <= TOTAL_SECTORS
    && (a != FullErase ==> j.bytesRemaining == j.totalBytes <= FLASH_SIZE)
  }

  /** Neither the product nor the sums leave 32 bits. */
  lemma NoOverflow(a: Action, j: Job)
    requires InBounds(a, j)
    ensures 0 <= Done(a, j) <= Work(a, j)
    ensures PercentOf(a, j) == (Done(a, j) * 100, Work(a, j))
  {
    if a != FullErase {
      FitsInWord(Done(a, j));
    }
    FitsInWord(Done(a, j) * 100);
    FitsInWord(Work(a, j));
  }

  lemma ShareBounds(done: nat, work: nat)
    requires done <= work && 0 < work
    ensures 0 <= done * 100 / work <= 100 && done * 100 / work % U8_MOD == done * 100 / work
    ensures done == work ==> done * 100 / work == 100
  {
    DivMonotone(done * 100, work * 100, work);
    WholeQuotient(100, work);
  }

  /** Once the first erase is issued nothing overflows 32 bits and the 8-bit value is the
      true percentage; it is undefined exactly for an empty image. */
  lemma PercentIsExact(a: Action, j: Job)
    requires InBounds(a, j)
    ensures Percent(a, j).Some? <==> Work(a, j) > 0
    ensures Work(a, j) > 0 ==> Percent(a, j) == Some(Share(a, j)) && 0 <= Share(a, j) <= 100
    ensures Work(a, j) > 0 && Done(a, j) == Work(a, j) ==> Share(a, j) == 100
  {
    NoOverflow(a, j);
    if Work(a, j) > 0 {
      ShareBounds(Done(a, j), Work(a, j));
    }
  }

  /** Before it, with `current_sector_` still -1, the subtraction wraps: the formula would be
      negative, and the value is whatever 2^32 - 100 leaves. */
  lemma EarlyProgressIsNotAPercentage(a: Action, j: Job)
    requires Untouched(a, j) && Work(a, j) > 0
    ensures Percent(a, j) == Some((U32_MOD - 100) / Work(a, j) % U8_MOD) && Share(a, j) < 0
  {
    FitsInWord(Work(a, j));
    assert Done(a, j) == -1;
    assert PercentOf(a, j).0 == U32_MOD - 100;
  }

  ghost predicate Ascending(v: seq<nat>, top: int) {
    && (forall i, j :: 0 <= i < j < |v| ==> v[i] <= v[j])
    && (forall i :: 0 <= i < |v| ==> v[i] <= top)
  }

  ghost predicate LogInv(f: Flasher, published: seq<nat>) {
    && Ascending(published, 100)
    && (Busy(f) && f.job.currentSector < 0 ==> published == [])
    && (Busy(f) && f.job.currentSector >= 0 && Work(f.action, f.job) > 0 ==>
          Ascending(published, Share(f.action, f.job)))
    && (Busy(f) && Work(f.action, f.job) == 0 ==> f.report.progress == 0 && Ascending(published, 0))
  }

  ghost predicate ProgressInv(w: World) {
    LogInv(w.f, w.h.published)
  }

  /** `v` is a good log once the counters stand at `j` and `r` has been published. */
  ghost predicate GoodLog(a: Action, j: Job, r: Report, v: seq<nat>) {
    && Ascending(v, 100)
    && (Work(a, j) > 0 ==> Ascending(v, Share(a, j)))
    && (Work(a, j) == 0 ==> r.progress == 0 && Ascending(v, 0))
  }

  function Extended(v: seq<nat>, due: bool, progress: nat): seq<nat> {
    if due then v + [progress] else v
  }

  /** A step only moves the counters forward, so the percentage never falls. */
  lemma ProgressGrows(w: World, j: Job, o: Oracle)
    requires Busy(w.f) && ProgressInv(w) && InBounds(w.f.action, j) && w.f.job.currentSector >= -1
    requires Work(w.f.action, j) == Work(w.f.action, w.f.job) && Done(w.f.action, w.f.job) <= Done(w.f.action, j)
    requires w.f.job.currentSector >= 0 ==> Done(w.f.action, w.f.job) >= 0
    ensures var r := PublishProgress(w.f.report, w.f.action, j, o.now);
            GoodLog(w.f.action, j, r, Extended(w.h.published, ProgressDue(w.f.report, o.now), r.progress))
  {
    var a := w.f.action;
    PercentIsExact(a, j);
    if Work(a, j) > 0 && w.f.job.currentSector >= 0 {
      DivMonotone(Done(a, w.f.job) * 100, Done(a, j) * 100, Work(a, j));
    }
  }

  lemma EraseLogs(f: Flasher, s: Stepped, r: Report, v: seq<nat>)
    requires f.phase == Erasing && s.job.currentSector >= -1
    requires s.job.currentSector >= 0 ==> GoodLog(f.action, s.job, r, v)
    requires s.job.currentSector < 0 ==> v == [] && (Work(f.action, s.job) == 0 ==> r.progress == 0)
    ensures LogInv(EraseTail(f, s, r), v)
  {
    if s.remaining == 0 && f.action == FullErase {
    } else if s.remaining == 0 {
    } else if s.remaining < 0 {
    }
  }

  lemma EraseKeepsProgress(w: World, o: Oracle, s: Stepped)
    requires w.f.phase == Erasing && SizeInv(w.f) && ProgressInv(w) && EraseOutcome(w.f, o, s)
    ensures var g := EraseTail(w.f, s, PublishProgress(w.f.report, w.f.action, s.job, o.now));
            LogInv(g, LogProgress(w, g, o.now))
  {
    Sizes(w.f.job.totalBytes);
    var a, r := w.f.action, PublishProgress(w.f.report, w.f.action, s.job, o.now);
    if s.job.currentSector >= 0 {
      ProgressGrows(w, s.job, o);
    } else if Work(a, s.job) == 0 {
      assert PercentOf(a, s.job).1 == 0;
    }
    EraseLogs(w.f, s, r, LogProgress(w, EraseTail(w.f, s, r), o.now));
  }

  lemma FlashLogs(f: Flasher, s: Stepped, r: Report, v: seq<nat>)
    requires f.phase == Flashing && s.job.currentSector >= 0 && GoodLog(f.action, s.job, r, v)
    ensures LogInv(FlashTail(f, s, r), v)
  {
    if s.remaining == 0 {
    } else if s.remaining < 0 {
    }
  }

  lemma FlashKeepsProgress(w: World, o: Oracle, s: Stepped)
    requires w.f.phase == Flashing && SizeInv(w.f) && ProgressInv(w) && FlashOutcome(w.f, s)
    ensures var g := FlashTail(w.f, s, PublishProgress(w.f.report, w.f.action, s.job, o.now));
            LogInv(g, LogProgress(w, g, o.now))
  {
    Sizes(w.f.job.totalBytes);
    ProgressGrows(w, s.job, o);
    var r := PublishProgress(w.f.report, w.f.action, s.job, o.now);
    FlashLogs(w.f, s, r, LogProgress(w, FlashTail(w.f, s, r), o.now));
  }

  // ---------------------------------------------------------------- fault-free runs

  /** An embedded image whose digest is right, with nothing going wrong on the way. */
  ghost predicate Smooth(w: World) {
    && w.f.action == FlashEmbedded && w.h.faultFree
    && SameDigest(w.f.config.md5(w.f.config.image), w.f.config.imageMd5)
  }

  ghost predicate FaultInv(w: World) {
    var f, h := w.f, w.h;
    Smooth(w) ==>
      && f.phase != Error
      && (f.phase == Initializing ==> h.passes == 0 && f.expectedMd5 == f.config.imageMd5)
      && (Busy(f) ==> !h.probed && f.expectedMd5 == f.config.imageMd5)
      && (f.phase == Erasing ==> h.passes == f.job.currentSector + 2)
      && (f.phase == Flashing ==> h.passes == f.job.totalSectors + 2 + f.job.pagePos / PAGE_SIZE)
      && (f.phase == Success ==> h.passes == SectorsFor(|f.config.image|) + 2 + PagesFor(|f.config.image|))
  }

  lemma EraseStaysSmooth(w: World, o: Oracle, s: Stepped, r: Report)
    requires w.f.phase == Erasing && SizeInv(w.f) && FaultInv(w) && EraseOutcome(w.f, o, s)
    ensures var g := EraseTail(w.f, s, r); FaultInv(World(g, ObserveErase(w, o, g)))
  {
  }

  /** Programming data into an erased page stores the data. */
  lemma ProgramErased(before: Page, data: Page)
    requires forall i :: 0 <= i < PAGE_SIZE ==> before[i] == ERASED
    ensures Programmed(before, data) == data
  {
  }

  lemma CleanStore(c: Chip, addr: nat, page: Page, o: Oracle)
    requires addr % PAGE_SIZE == 0 && addr < FLASH_SIZE && BlankUpTo(c.cells, addr, addr + PAGE_SIZE)
    requires o.first.cells == Programmed(PageAt(c.cells, addr), page) || (o.second.reported && o.second.cells == page)
    ensures StorePage(c, true, addr, page, o).1
  {
    ProgramErased(PageAt(c.cells, addr), page);
    StoredIffAWriteTook(c, addr, page, o);
  }

  lemma CleanCommit(f: Flasher, block: seq<Byte>, reader: Reader, stored: (Chip, bool))
    requires SizeInv(f) && f.phase == Flashing && f.action == FlashEmbedded && NextBlock(f, block, reader) && stored.1
    requires |block| == PAGE_SIZE || |block| == f.job.bytesRemaining
    requires SameDigest(f.config.md5(f.config.image), f.expectedMd5)
    ensures CommitBlock(f, block, reader, stored).remaining >= 0
  {
    if |block| == f.job.bytesRemaining {
      assert f.job.received + block == f.config.image;
    }
  }

  lemma CleanStepSucceeds(w: World, o: Oracle)
    requires w.f.phase == Flashing && SizeInv(w.f) && LinkInv(w) && ChipInv(w) && FaultInv(w)
    requires Smooth(w) && CleanWrite(w.f, o)
    ensures FlashingStep(w.f, o).remaining >= 0
  {
    var f := w.f;
    var (block, reader) := ReadBlock(f, o);
    EmbeddedBlock(f, o);
    PageInErasedSector(f);
    assert BlankUpTo(f.chip.cells, f.job.pagePos, f.job.pagePos + PAGE_SIZE);
    CleanStore(f.chip, f.job.pagePos, Pad(block.value), o);
    var stored := StorePage(f.chip, true, f.job.pagePos, Pad(block.value), o);
    CleanCommit(f, block.value, reader, stored);
    assert FlashingStep(f, o) == CommitBlock(f, block.value, reader, stored);
  }

  /** The embedded reader always has a whole page or all that is left. */
  lemma EmbeddedBlock(f: Flasher, o: Oracle)
    requires SizeInv(f) && f.phase == Flashing && f.action == FlashEmbedded
    ensures var (block, reader) := ReadBlock(f, o);
            && block.Some? && NextBlock(f, block.value, reader)
            && (|block.value| == PAGE_SIZE || |block.value| == f.job.bytesRemaining)
    ensures f.job.pagePos < FLASH_SIZE
  {
    BlockOutcome(f, o);
  }

  lemma FlashStaysSmooth(w: World, o: Oracle, s: Stepped, r: Report)
    requires w.f.phase == Flashing && SizeInv(w.f) && FaultInv(w) && FlashOutcome(w.f, s)
    requires Smooth(w) && CleanWrite(w.f, o) ==> s.remaining >= 0
    ensures var g := FlashTail(w.f, s, r); FaultInv(World(g, ObserveFlash(w, o, g)))
  {
    Sizes(w.f.job.totalBytes);
  }

  // ---------------------------------------------------------------- every event

  ghost predicate FullInv(w: World) {
    Inv(w) && ProgressInv(w) && FaultInv(w)
  }

  lemma InitKeepsSizes(w: World, o: Oracle)
    requires FullInv(w) && w.f.phase == Initializing && Admissible(w.f, Pass(o))
    ensures var v := Next(w, Pass(o)); BlindInv(v) && LinkInv(v) && ResourceInv(v) && SizeInv(v.f)
  {
  }

  lemma InitKeepsRest(w: World, o: Oracle)
    requires FullInv(w) && w.f.phase == Initializing
    ensures var v := Next(w, Pass(o)); ChipInv(v) && SuccessInv(v) && OrderInv(v) && ProgressInv(v) && FaultInv(v)
  {
  }

  lemma EraseKeeps(w: World, o: Oracle, s: Stepped)
    requires FullInv(w) && w.f.phase == Erasing && EraseOutcome(w.f, o, s)
    ensures var g := EraseTail(w.f, s, PublishProgress(w.f.report, w.f.action, s.job, o.now));
            FullInv(World(g, ObserveErase(w, o, g)))
  {
    var r := PublishProgress(w.f.report, w.f.action, s.job, o.now);
    EraseKeepsLinks(w, o, s, r);
    EraseKeepsSizes(w.f, o, s, r);
    EraseKeepsBlind(w, o, s, r);
    EraseKeepsChip(w, o, s, r);
    EraseKeepsOrder(w, o, s, r);
    EraseKeepsProgress(w, o, s);
    EraseStaysSmooth(w, o, s, r);
  }

  lemma FlashKeeps(w: World, o: Oracle, s: Stepped)
    requires FullInv(w) && w.f.phase == Flashing && FlashOutcome(w.f, s)
    requires Smooth(w) && CleanWrite(w.f, o) ==> s.remaining >= 0
    requires !Programs(w.f, o) ==> s.chip == w.f.chip
    ensures var g := FlashTail(w.f, s, PublishProgress(w.f.report, w.f.action, s.job, o.now));
            FullInv(World(g, ObserveFlash(w, o, g)))
  {
    var r := PublishProgress(w.f.report, w.f.action, s.job, o.now);
    FlashKeepsLinks(w, o, s, r);
    FlashKeepsSizes(w.f, o, s, r);
    FlashKeepsBlind(w, o, s, r);
    FlashKeepsChip(w, o, s, r);
    FlashDelivers(w, o, s, r);
    FlashKeepsOrder(w, o, s, r);
    FlashKeepsProgress(w, o, s);
    FlashStaysSmooth(w, o, s, r);
  }

  lemma ErasePassKeeps(w: World, o: Oracle)
    requires FullInv(w) && w.f.phase == Erasing
    ensures FullInv(Next(w, Pass(o)))
  {
    Sizes(w.f.job.totalBytes);
    EraseStepOutcome(w.f, o);
    EraseKeeps(w, o, ErasingStep(w.f, o));
  }

  lemma FlashPassKeeps(w: World, o: Oracle)
    requires FullInv(w) && w.f.phase == Flashing && Admissible(w.f, Pass(o))
    ensures FullInv(Next(w, Pass(o)))
  {
    FlashStepOutcome(w.f, o);
    if Smooth(w) && CleanWrite(w.f, o) {
      CleanStepSucceeds(w, o);
    }
    if !Programs(w.f, o) {
      OnlyProgramsChange(w.f, o);
    }
    FlashKeeps(w, o, FlashingStep(w.f, o));
  }

  lemma PassKeeps(w: World, o: Oracle)
    requires FullInv(w) && Admissible(w.f, Pass(o))
    ensures FullInv(Next(w, Pass(o)))
  {
    match w.f.phase
    case Initializing =>
      InitKeepsSizes(w, o);
      InitKeepsRest(w, o);
    case Erasing => ErasePassKeeps(w, o);
    case Flashing => FlashPassKeeps(w, o);
    case _ =>
  }

  lemma SettledHalf(w: World)
    requires Inv(w) && w.f.phase == Erasing && !w.h.blinded
    ensures HalfErased(Settle(w.f.chip).cells, w.h.base, w.f.job.currentSector + 1)
  {
    var next := w.f.job.currentSector + 1;
    var cells := Settle(w.f.chip).cells;
    forall i | 0 <= i < FLASH_SIZE
      ensures if i < next * SECTOR_SIZE then cells[i] == ERASED else cells[i] == w.h.base[i]
    {
      if next > 0 {
        assert SectorBase(next - 1) == (next - 1) * SECTOR_SIZE;
      }
    }
  }

  lemma ProbeKeepsBlind(w: World)
    requires Inv(w)
    ensures BlindInv(Next(w, Probe)) && LinkInv(Next(w, Probe))
  {
    var f := w.f;
    if f.phase == Flashing && !w.h.blinded {
      assert f.job.received[..f.job.pagePos] == f.job.received;
      assert Left(f.chip.cells, f.job, f.job.pagePos);
    } else if f.phase == Erasing && !w.h.blinded {
      SettledHalf(w);
    }
  }

  lemma ProbeKeepsRest(w: World)
    requires FullInv(w)
    ensures var v := Next(w, Probe);
            && ResourceInv(v) && SizeInv(v.f) && ChipInv(v) && SuccessInv(v) && OrderInv(v)
            && ProgressInv(v) && FaultInv(v)
  {
  }

  lemma SetMd5Keeps(w: World, md5: string)
    requires FullInv(w)
    ensures FullInv(Next(w, SetMd5(md5)))
  {
  }

  lemma LinkLoopKeepsMode(l: Link, due: bool, found: bool)
    ensures LinkLoop(l, due, found).direct == l.direct
    ensures l.state == FlashConnected <==> LinkLoop(l, due, found).state == FlashConnected
  {
    if l.state == Detached && due {
      if found {
      }
    }
  }

  lemma LinkPassKeeps(w: World, due: bool, found: bool)
    requires FullInv(w)
    ensures FullInv(Next(w, LinkPass(due, found)))
  {
    LinkLoopKeepsMode(w.f.link, due, found);
    var v := Next(w, LinkPass(due, found));
    assert v.h == w.h && v.f == w.f.(link := v.f.link);
    assert BlindInv(v) && LinkInv(v) && ResourceInv(v);
    assert SizeInv(v.f) && ChipInv(v) && SuccessInv(v);
  }

  lemma RequestKeepsInv(w: World, e: Event)
    requires Inv(w) && (e.RequestErase? || e.RequestRemote? || e.RequestEmbedded?)
    ensures Inv(Next(w, e))
  {
    if w.f.phase == Idle {
      match e
      case RequestErase =>
      case RequestEmbedded =>
        if |w.f.config.image| == 0 {
        }
      case RequestRemote(urlEmpty, fetched) =>
        if urlEmpty {
        } else if w.f.expectedMd5 == "" {
          match fetched
          case NotFetched =>
          case ShortRead(left) =>
          case Fetched(digest) =>
        }
    }
  }

  lemma RequestKeepsRest(w: World, e: Event)
    requires ProgressInv(w) && FaultInv(w) && SizeInv(w.f) && (e.RequestErase? || e.RequestRemote? || e.RequestEmbedded?)
    ensures ProgressInv(Next(w, e)) && FaultInv(Next(w, e))
  {
  }

  lemma StepKeeps(w: World, e: Event)
    requires FullInv(w) && Admissible(w.f, e)
    ensures FullInv(Next(w, e))
  {
    match e
    case Pass(o) => PassKeeps(w, o);
    case Probe =>
      ProbeKeepsBlind(w);
      ProbeKeepsRest(w);
    case SetMd5(md5) => SetMd5Keeps(w, md5);
    case LinkPass(due, found) => LinkPassKeeps(w, due, found);
    case _ =>
      RequestKeepsInv(w, e);
      RequestKeepsRest(w, e);
  }

  lemma RunKeeps(w: World, es: seq<Event>, last: World)
    requires FullInv(w) && Run(w, es, last)
    ensures FullInv(last)
    decreases |es|
  {
    if es == [] {
    } else {
      StepKeeps(w, es[0]);
      RunKeeps(Next(w, es[0]), es[1..], last);
    }
  }

  ghost predicate Reachable(w: World) {
    exists start, es :: Boot(start) && Run(start, es, w)
  }

  lemma ReachableKeeps(w: World)
    requires Reachable(w)
    ensures FullInv(w)
  {
    var start, es :| Boot(start) && Run(start, es, w);
    RunKeeps(start, es, w);
  }

  // ---------------------------------------------------------------- theorems

  /** Whatever page writes did, an action that reaches SUCCESS without having been probed
      half-way has the whole image on the chip, padded with zeros to a page, and the digest
      of exactly those bytes is the expected one. */
  lemma SuccessMeansStored(w: World)
    requires Reachable(w) && w.f.phase == Success && w.f.action != FullErase && !w.h.blinded
    ensures Holds(w.f.chip.cells, w.f.job.received) && |w.f.job.received| == w.f.job.totalBytes
    ensures SameDigest(w.f.config.md5(w.f.job.received), w.h.wanted)
    ensures |w.f.config.md5(w.f.job.received)| == 32 == |w.h.wanted| ==> w.f.config.md5(w.f.job.received) == w.h.wanted
    ensures w.f.action == FlashEmbedded ==> w.f.job.received == w.f.config.image
  {
    ReachableKeeps(w);
  }

  /** What was left to program when the bus was taken away is exactly erased cells. */
  predicate NothingToProgram(image: seq<Byte>, at: nat) {
    forall i :: at <= i < PagesFor(|image|) * PAGE_SIZE ==> (if i < |image| then image[i] else 0) == ERASED
  }

  /** The padded image is what an erase up to sector `from` made of `base`. */
  ghost predicate AlreadyThere(base: Memory, image: seq<Byte>, from: nat) {
    forall i :: 0 <= i < FLASH_SIZE && i < PagesFor(|image|) * PAGE_SIZE ==>
      (if i < |image| then image[i] else 0) == if i < from * SECTOR_SIZE then ERASED else base[i]
  }

  /** And with a probe half-way: the chip is as the probe left it, so an image probed while
      being flashed is stored if and only if the rest of it needed no programming, and one
      probed while erasing if and only if it was on the half-erased chip already. */
  lemma StoredDespiteProbeIff(w: World)
    requires Reachable(w) && w.f.phase == Success && w.f.action != FullErase && w.h.blinded
    ensures w.f.chip.cells == w.h.frozen
    ensures w.h.blindAt.Some? ==>
              (Holds(w.f.chip.cells, w.f.job.received) <==> NothingToProgram(w.f.job.received, w.h.blindAt.value))
    ensures w.h.blindAt.None? ==>
              && w.h.blindFrom.Some?
              && (Holds(w.f.chip.cells, w.f.job.received) <==>
                    AlreadyThere(w.h.base, w.f.job.received, w.h.blindFrom.value))
  {
    ReachableKeeps(w);
    if w.h.blindAt.Some? {
      Sizes(w.f.job.totalBytes);
      HoldsIffNothingLeft(w.h.frozen, w.f.job, w.h.blindAt.value);
    } else {
      HoldsIffAlreadyThere(w.h.frozen, w.h.base, w.f.job.received, w.h.blindFrom.value);
    }
  }

  lemma HoldsIffAlreadyThere(m: Memory, base: Memory, image: seq<Byte>, from: nat)
    requires HalfErased(m, base, from)
    ensures Holds(m, image) <==> AlreadyThere(base, image, from)
  {
    forall i | 0 <= i < FLASH_SIZE
      ensures m[i] == if i < from * SECTOR_SIZE then ERASED else base[i]
    {
    }
  }

  lemma HoldsIffNothingLeft(m: Memory, j: Job, at: nat)
    requires Left(m, j, at) && |j.received| == j.totalBytes <= FLASH_SIZE
    ensures Holds(m, j.received) <==> NothingToProgram(j.received, at)
  {
    var end := PagesFor(j.totalBytes) * PAGE_SIZE;
    Sizes(j.totalBytes);
    forall i | 0 <= i < end
      ensures i < FLASH_SIZE && (i < at ==> m[i] == j.received[i]) && (i >= at ==> m[i] == ERASED)
    {
      if i < at {
        assert j.received[..at][i] == j.received[i];
      }
    }
  }

  lemma SuccessfulEraseIsBlank(w: World)
    requires Reachable(w) && w.f.phase == Success && w.f.action == FullErase && !w.h.blinded
    ensures forall i :: 0 <= i < FLASH_SIZE ==> w.f.chip.cells[i] == ERASED
  {
    ReachableKeeps(w);
  }

  /** After a probe half-way it is blank if and only if the sectors not yet reached were. */
  lemma ProbedEraseIsBlankIff(w: World)
    requires Reachable(w) && w.f.phase == Success && w.f.action == FullErase && w.h.blinded
    ensures w.h.blindFrom.Some?
    ensures BlankUpTo(w.f.chip.cells, 0, FLASH_SIZE) <==>
              BlankUpTo(w.h.base, w.h.blindFrom.value * SECTOR_SIZE, FLASH_SIZE)
  {
    ReachableKeeps(w);
    assert w.f.chip.cells == w.h.frozen && HalfErased(w.h.frozen, w.h.base, w.h.blindFrom.value);
  }

  /** Pages are only programmed inside sectors whose erase finished earlier in the action,
      exactly when the image is not empty; bytes past the erased sectors then never change. */
  lemma ErasedBeforeProgrammed(w: World)
    requires Reachable(w)
    ensures w.h.orderly <==> w.h.programs == 0 || w.f.job.totalBytes > 0
    ensures w.f.phase != Initializing && w.f.action != FullErase && w.h.orderly ==>
              SameFrom(w.f.chip.cells, w.h.base, w.f.job.totalSectors * SECTOR_SIZE)
    ensures Busy(w.f) && w.f.action != FullErase ==>
              var pages := PagesFor(w.f.job.totalBytes) * PAGE_SIZE;
              pages <= w.f.job.totalSectors * SECTOR_SIZE < pages + SECTOR_SIZE
  {
    ReachableKeeps(w);
    Sizes(w.f.job.totalBytes);
  }

  /** Published progress never falls and never exceeds 100, and it reads 100 when the last
      page is in. */
  lemma ProgressIsMonotone(w: World)
    requires Reachable(w)
    ensures forall i, j :: 0 <= i < j < |w.h.published| ==> w.h.published[i] <= w.h.published[j]
    ensures forall i :: 0 <= i < |w.h.published| ==> w.h.published[i] <= 100
    ensures w.f.phase == Flashing && w.f.job.totalBytes > 0 ==>
              Percent(w.f.action, w.f.job.(bytesRemaining := 0)) == Some(100)
  {
    ReachableKeeps(w);
    if w.f.phase == Flashing && w.f.job.totalBytes > 0 {
      Sizes(w.f.job.totalBytes);
      PercentIsExact(w.f.action, w.f.job.(bytesRemaining := 0));
    }
  }

  /** A value is published for its share of the work if and only if the first erase command
      was issued before it. */
  lemma PublishedIsShareIffErasing(w: World, o: Oracle)
    requires Reachable(w) && Busy(w.f) && Admissible(w.f, Pass(o)) && ProgressDue(w.f.report, o.now)
    requires Work(w.f.action, w.f.job) > 0
    ensures var g := Next(w, Pass(o)).f;
            && Work(w.f.action, g.job) == Work(w.f.action, w.f.job)
            && (g.report.progress == Share(w.f.action, g.job) <==> g.job.currentSector >= 0)
  {
    ReachableKeeps(w);
    Sizes(w.f.job.totalBytes);
    var s := if w.f.phase == Erasing then ErasingStep(w.f, o) else FlashingStep(w.f, o);
    if w.f.phase == Erasing {
      EraseStepOutcome(w.f, o);
    } else {
      FlashStepOutcome(w.f, o);
    }
    if s.job.currentSector >= 0 {
      PercentIsExact(w.f.action, s.job);
    } else {
      EarlyProgressIsNotAPercentage(w.f.action, s.job);
    }
    PassPublishes(w.f, o);
  }

  /** Progress is published at most once a second: a busy pass leaves the last value alone
      until more than 1000 ms have gone by on the wrapped clock. */
  lemma ProgressIsThrottled(f: Flasher, o: Oracle)
    requires Busy(f)
    ensures (o.now - f.report.lastPublished) % 0x1_0000_0000 <= 1000 ==> LoopPass(f, o).report == f.report
    ensures (o.now - f.report.lastPublished) % 0x1_0000_0000 > 1000 ==> LoopPass(f, o).report.lastPublished == o.now
  {
    PassPublishes(f, o);
  }

  /** A busy pass publishes what its step left in the counters. */
  lemma PassPublishes(f: Flasher, o: Oracle)
    requires Busy(f)
    ensures var s := if f.phase == Erasing then ErasingStep(f, o) else FlashingStep(f, o);
            && LoopPass(f, o).report == PublishProgress(f.report, f.action, s.job, o.now)
            && LoopPass(f, o).job == s.job
  {
  }

  /** A fault-free action on an embedded image never fails, and the number of passes not
      spent waiting decides its phase: one to initialise, sectors + 1 to erase, one a page. */
  lemma FaultFreeSchedule(w: World)
    requires Reachable(w) && Smooth(w) && w.f.phase != Idle
    ensures var sectors, pages := SectorsFor(|w.f.config.image|), PagesFor(|w.f.config.image|);
            var n := w.h.passes;
            && n <= 1 + (sectors + 1) + pages
            && w.f.phase == (if n == 0 then Initializing
                             else if n <= sectors + 1 then Erasing
                             else if n <= sectors + 1 + pages then Flashing
                             else Success)
  {
    ReachableKeeps(w);
    Sizes(|w.f.config.image|);
  }

  /** The bus is with the chip exactly when the link says so; while erasing or flashing
      exactly when nobody probed, and otherwise only as left over from a refused erase. */
  lemma BusOwnership(w: World)
    requires Reachable(w)
    ensures w.f.link.direct <==> w.f.link.state == FlashConnected
    ensures Busy(w.f) ==> (TransferRefused(w.f.link) <==> !w.h.probed)
    ensures !Busy(w.f) ==> (TransferRefused(w.f.link) <==> w.h.leaked && !w.h.probed)
    ensures !Busy(w.f) && !w.h.leaked ==> w.f.reader == NoReader && !w.f.buffers
  {
    ReachableKeeps(w);
  }

  // ---------------------------------------------------------------- what each pass comes to

  /** Bus, reader, buffers and expected digest are given back. */
  predicate Released(f: Flasher, g: Flasher) {
    && g.reader == NoReader && !g.buffers && g.expectedMd5 == ""
    && g.link == if f.link.direct then Link(Detached, false, 0) else f.link
  }

  /** Initialisation by action: a full erase needs nothing but the bus; an image needs its
      reader and both buffers, each failure having its code and giving everything back. */
  lemma InitOutcome(w: World, o: Oracle)
    requires Reachable(w) && w.f.phase == Initializing
    ensures var f, g := w.f, Next(w, Pass(o)).f;
            var image := f.action != FullErase;
            var readerFails := f.action == FlashRemote && !o.readerOk;
            var fails := image && (readerFails || !o.malloc1 || !o.malloc2);
            && g.chip == f.chip && g.action == f.action
            && (fails ==> g.phase == Error && Released(f.(link := Link(FlashConnected, true, f.link.attempts)), g)
                          && g.error == if readerFails then InitReaderError else InitFlashError)
            && (!fails ==> g.phase == Erasing && g.error == f.error && g.expectedMd5 == f.expectedMd5
                           && g.link == Link(FlashConnected, true, f.link.attempts) && g.job.currentSector == -1)
            && (!image ==> g.job.totalSectors == 2048)
            && (image && !fails ==>
                  && g.job.totalBytes == g.job.bytesRemaining == (if f.action == FlashRemote then o.remoteSize else |f.config.image|)
                  && g.job.pagePos == 0 && g.job.received == [] && g.report.progress == 0 && g.buffers
                  && g.reader == if f.action == FlashRemote then RemoteReader else EmbeddedReader(0))
  {
    if w.f.action != FullErase {
      if w.f.action == FlashRemote && !o.readerOk {
      } else if !o.malloc1 {
      } else if !o.malloc2 {
      }
    }
  }

  /** An erasing pass: waits while the chip is busy; fails, keeping bus and buffers, when the
      next erase is refused; ends when no sector is left, in SUCCESS for a full erase and in
      flashing for an image. */
  lemma ErasePassOutcome(w: World, o: Oracle)
    requires Reachable(w) && w.f.phase == Erasing
    ensures var f, g := w.f, Next(w, Pass(o)).f;
            var last := f.job.currentSector + 1 == f.job.totalSectors
                        || (f.job.totalSectors == 0 && f.job.currentSector == -1);
            && (o.busy ==> g.phase == Erasing && g.job == f.job && g.chip == f.chip && g.error == f.error)
            && (!o.busy && !last && !o.writeEnabled ==>
                  g.phase == Error && g.error == WriteToFlashError && g.link == f.link && g.buffers == f.buffers)
            && (!o.busy && !last && o.writeEnabled ==> g.phase == Erasing && g.error == f.error)
            && (!o.busy && last && f.action != FullErase ==> g.phase == Flashing && g.link == f.link && g.error == f.error)
            && (!o.busy && last && f.action == FullErase ==> g.phase == Success && g.error == f.error && Released(f, g))
  {
    ReachableKeeps(w);
    Sizes(w.f.job.totalBytes);
    EraseStepOutcome(w.f, o);
    var s := ErasingStep(w.f, o);
    if o.busy {
    } else if s.job.currentSector < s.job.totalSectors {
      if !o.writeEnabled {
      } else if w.f.link.direct {
      }
    }
  }

  /** What the reader delivers next: the following page of the embedded image or what is left
      of it, or what the server sent, if it is not more than was asked for. */
  ghost predicate Arrives(f: Flasher, o: Oracle, block: Option<seq<Byte>>) {
    if f.action == FlashEmbedded then
      var at, size := f.job.pagePos, |f.config.image|;
      at <= size && block == Some(if at + 256 <= size then f.config.image[at..at + 256] else f.config.image[at..])
    else block == if o.remoteBlock.Some? && |o.remoteBlock.value| <= 256 then o.remoteBlock else None
  }

  lemma BlockArrives(f: Flasher, o: Oracle)
    requires SizeInv(f) && f.phase == Flashing && f.reader != NoReader
    ensures Arrives(f, o, ReadBlock(f, o).0)
  {
    if f.action == FlashEmbedded {
      var image := f.config.image;
      assert image[f.job.pagePos..|image|] == image[f.job.pagePos..];
    }
  }

  /** The write of the block fails: neither attempt left it on the chip. */
  predicate WriteFails(block: seq<Byte>, o: Oracle)
    requires |block| <= 256
  {
    o.first.cells != Pad(block) && (!o.second.reported || o.second.cells != Pad(block))
  }

  /** A flashing pass with the bus in hand, in the order the failures are looked for: no block
      or one short of a page before the end, a page that did not take, a wrong digest; each
      ends the action with its code and gives everything back. Otherwise the block counts, and
      the last one ends in SUCCESS. */
  lemma FlashPassOutcome(w: World, o: Oracle) returns (block: Option<seq<Byte>>)
    requires Reachable(w) && w.f.phase == Flashing && !w.h.probed && Admissible(w.f, Pass(o))
    ensures Arrives(w.f, o, block)
    ensures block.None? ==>
              var g := Next(w, Pass(o)).f; g.phase == Error && g.error == ConnectionError && Released(w.f, g)
    ensures block.Some? ==>
              var f, g, b := w.f, Next(w, Pass(o)).f, block.value;
              var last := |b| == f.job.bytesRemaining;
              var mismatch := last && !SameDigest(f.config.md5(f.job.received + b), f.expectedMd5);
              && |b| <= 256 && |b| <= f.job.bytesRemaining
              && (|b| < 256 && !last ==> g.phase == Error && g.error == ConnectionError && g.chip == f.chip)
              && ((|b| == 256 || last) && WriteFails(b, o) ==> g.phase == Error && g.error == WriteToFlashError)
              && ((|b| == 256 || last) && !WriteFails(b, o) && mismatch ==> g.phase == Error && g.error == Md5MismatchError)
              && ((|b| == 256 || last) && !WriteFails(b, o) && !mismatch ==>
                    && g.phase == (if last then Success else Flashing) && g.error == f.error
                    && g.job.received == f.job.received + b && g.job.bytesRemaining == f.job.bytesRemaining - |b|
                    && g.job.pagePos == f.job.pagePos + 256)
              && (g.phase != Flashing ==> Released(f, g))
  {
    ReachableKeeps(w);
    var f := w.f;
    var (b, reader) := ReadBlock(f, o);
    block := b;
    BlockArrives(f, o);
    BlockOutcome(f, o);
    FlashTailReleases(f, o);
    if block.Some? {
      StoredIffAWriteTook(f.chip, f.job.pagePos, Pad(b.value), o);
      var stored := StorePage(f.chip, true, f.job.pagePos, Pad(b.value), o);
      assert FlashingStep(f, o) == CommitBlock(f, b.value, reader, stored);
      CommitCodes(f, b.value, reader, stored);
    }
  }

  lemma CommitCodes(f: Flasher, b: seq<Byte>, reader: Reader, stored: (Chip, bool))
    requires SizeInv(f) && f.phase == Flashing && NextBlock(f, b, reader)
    ensures var s := CommitBlock(f, b, reader, stored);
            var last := |b| == f.job.bytesRemaining;
            var mismatch := last && !SameDigest(f.config.md5(f.job.received + b), f.expectedMd5);
            && (|b| < 256 && !last ==> s.remaining == -1 && s.error == ConnectionError && s.chip == f.chip)
            && ((|b| == 256 || last) && !stored.1 ==> s.remaining == -1 && s.error == WriteToFlashError)
            && ((|b| == 256 || last) && stored.1 && mismatch ==> s.remaining == -1 && s.error == Md5MismatchError)
            && ((|b| == 256 || last) && stored.1 && !mismatch ==>
                  && s.remaining == f.job.bytesRemaining - |b| && s.error == f.error
                  && s.job.received == f.job.received + b && s.job.bytesRemaining == f.job.bytesRemaining - |b|
                  && s.job.pagePos == f.job.pagePos + 256)
  {
    FitsInWord(f.job.bytesRemaining - |b|);
    if |b| != PAGE_SIZE && |b| != f.job.bytesRemaining {
    } else if !stored.1 {
    } else if |b| == f.job.bytesRemaining {
      if SameDigest(f.config.md5(f.job.received + b), f.expectedMd5) {
      }
    }
  }

  lemma FlashTailReleases(f: Flasher, o: Oracle)
    requires f.phase == Flashing
    ensures var s, g := FlashingStep(f, o), LoopPass(f, o);
            && g.phase == (if s.remaining == 0 then Success else if s.remaining < 0 then Error else Flashing)
            && g.error == s.error && g.job == s.job && g.chip == s.chip
            && (g.phase != Flashing ==> Released(f, g))
  {
    var s := FlashingStep(f, o);
    if s.remaining == 0 {
    } else if s.remaining < 0 {
    }
  }

  /** Requests: only an idle flasher takes one, and each refusal has its code. */
  lemma RequestOutcome(f: Flasher, urlEmpty: bool, fetched: Fetch)
    ensures f.phase != Idle ==>
              Step(f, RequestErase) == f && Step(f, RequestEmbedded) == f && Step(f, RequestRemote(urlEmpty, fetched)) == f
    ensures f.phase == Idle ==>
              && Step(f, RequestErase) == f.(phase := Initializing, action := FullErase)
              && (|f.config.image| == 0 ==> Step(f, RequestEmbedded) == f.(phase := Error, error := NoEmbeddedImageError))
              && (|f.config.image| > 0 ==>
                    Step(f, RequestEmbedded) ==
                      f.(phase := Initializing, action := FlashEmbedded, expectedMd5 := f.config.imageMd5))
              && (urlEmpty ==> Step(f, RequestRemote(true, fetched)) == f.(phase := Error, error := BadUrl))
              && var g := Step(f, RequestRemote(false, fetched));
                 var known := f.expectedMd5 != "" || fetched.Fetched?;
                 g.phase == (if known then Initializing else Error)
                 && (known ==> g.action == FlashRemote && g.error == f.error)
                 && (!known ==> g.error == Md5Invalid)
                 && (f.expectedMd5 != "" ==> g.expectedMd5 == f.expectedMd5)
    ensures forall md5 :: Step(f, SetMd5(md5)) == f.(expectedMd5 := md5)
    ensures forall o :: f.phase == Success || f.phase == Error ==> LoopPass(f, o) == f.(phase := Idle)
    ensures forall o :: f.phase == Idle ==> LoopPass(f, o) == f
  {
    if f.expectedMd5 == "" {
      match fetched
      case NotFetched =>
      case ShortRead(left) =>
      case Fetched(digest) =>
    }
  }

  // ---------------------------------------------------------------- reconnecting

  /** One pass of the link: whether an attempt is due, and whether it would find the device. */
  datatype LinkTry = LinkTry(due: bool, found: bool)

  function Reconnecting(l: Link, tries: seq<LinkTry>): Link
    decreases |tries|
  {
    if tries == [] then l else Reconnecting(LinkLoop(l, tries[0].due, tries[0].found), tries[1..])
  }

  /** Among the first `n` attempts that are due, one finds the device. */
  predicate FoundWithin(tries: seq<LinkTry>, n: nat)
    decreases |tries|
  {
    && tries != [] && n > 0
    && if tries[0].due then tries[0].found || FoundWithin(tries[1..], n - 1) else FoundWithin(tries[1..], n)
  }

  lemma {:induction false} StaysConnected(l: Link, tries: seq<LinkTry>)
    requires l.state != Detached
    ensures Reconnecting(l, tries) == l
    decreases |tries|
  {
    if tries == [] {
    } else {
      StaysConnected(l, tries[1..]);
    }
  }

  lemma {:induction false} ConnectsFrom(l: Link, tries: seq<LinkTry>)
    requires l.state == Detached && l.attempts <= 4
    ensures Reconnecting(l, tries).state == XmosConnected <==> l.attempts < 3 && FoundWithin(tries, 3 - l.attempts)
    ensures Reconnecting(l, tries).direct == l.direct
    ensures Reconnecting(l, tries).state == XmosConnected ==> Reconnecting(l, tries).attempts == 1
    decreases |tries|
  {
    if tries == [] {
    } else {
      var m := LinkLoop(l, tries[0].due, tries[0].found);
      if m.state == XmosConnected {
        StaysConnected(m, tries[1..]);
      } else {
        ConnectsFrom(m, tries[1..]);
      }
    }
  }

  /** A link given back by an action reaches the connected state if and only if one of the
      first three due attempts finds the device. */
  lemma ReconnectsIff(f: Flasher, g: Flasher, tries: seq<LinkTry>)
    requires f.link.direct && Released(f, g)
    ensures Reconnecting(g.link, tries).state == XmosConnected <==> FoundWithin(tries, 3)
    ensures !TransferRefused(Reconnecting(g.link, tries))
    ensures FoundWithin(tries, 3) ==> Reconnecting(g.link, tries).attempts == 1
  {
    ConnectsFrom(g.link, tries);
  }

  // ---------------------------------------------------------------- what does not hold

  lemma RunSnoc(w: World, es: seq<Event>, last: World, e: Event)
    requires Run(w, es, last) && Admissible(last.f, e)
    ensures Run(w, es + [e], Next(last, e))
    decreases |es|
  {
    if es == [] {
      assert Run(Next(w, e), [], Next(last, e));
    } else {
      RunSnoc(Next(w, es[0]), es[1..], last, e);
      assert (es + [e])[1..] == es[1..] + [e];
    }
  }

  lemma ReachNext(w: World, e: Event)
    requires Reachable(w) && Admissible(w.f, e)
    ensures Reachable(Next(w, e))
  {
    var start, es :| Boot(start) && Run(start, es, w);
    RunSnoc(start, es, w, e);
  }

  lemma ReachBoot(w: World)
    requires Boot(w)
    ensures Reachable(w)
  {
    assert Run(w, [], w);
  }

  function Calm(page: Page): Oracle {
    Oracle(0, true, 0, true, true, false, true, [], Some([]),
           WriteOutcome(true, page, page), WriteOutcome(true, page, page))
  }

  ghost predicate At(w: World, phase: Phase, job: Job, reader: Reader) {
    && w.f.phase == phase && w.f.job == job && w.f.reader == reader && w.f.link.direct
    && w.f.action != FullErase && w.h.programs == 0 && w.f.chip.pending == None
  }

  lemma EmptyInit(w: World, o: Oracle)
    requires w.f.phase == Initializing && w.f.action == FlashRemote && w.f.chip.pending == None
    requires o == Calm(Fill(0, PAGE_SIZE))
    ensures At(Next(w, Pass(o)), Erasing, FreshJob(0), RemoteReader)
  {
  }

  lemma EmptyErase(w: World, o: Oracle)
    requires At(w, Erasing, FreshJob(0), RemoteReader) && o == Calm(Fill(0, PAGE_SIZE))
    ensures At(Next(w, Pass(o)), Flashing, FreshJob(0).(currentSector := 0), RemoteReader)
  {
  }

  lemma EmptyFlash(w: World, o: Oracle)
    requires At(w, Flashing, FreshJob(0).(currentSector := 0), RemoteReader) && o == Calm(Fill(0, PAGE_SIZE))
    ensures Next(w, Pass(o)).h.programs == 1 && Next(w, Pass(o)).f.job.totalBytes == 0
  {
  }

  /** An empty remote image has no sector to erase, yet page 0 is programmed. */
  lemma EmptyImageSkipsErase(w0: World) returns (w: World)
    requires Boot(w0) && w0.f.expectedMd5 == ""
    ensures Reachable(w) && w.f.job.totalBytes == 0 && w.h.programs == 1 && !w.h.orderly
  {
    var o := Calm(Fill(0, PAGE_SIZE));
    var request := RequestRemote(false, Fetched(seq(MD5_SIZE, _ => '0')));
    var w1 := Next(w0, request);
    ReachBoot(w0);
    ReachNext(w0, request);
    EmptyInit(w1, o);
    ReachNext(w1, Pass(o));
    var w2 := Next(w1, Pass(o));
    EmptyErase(w2, o);
    ReachNext(w2, Pass(o));
    var w3 := Next(w2, Pass(o));
    EmptyFlash(w3, o);
    ReachNext(w3, Pass(o));
    w := Next(w3, Pass(o));
    ReachableKeeps(w);
  }

  /** A pass that finds the chip still busy, two seconds after boot. */
  function Waiting(): Oracle {
    Calm(Fill(0, PAGE_SIZE)).(now := 2000, busy := true)
  }

  lemma EraseBegins(w: World)
    requires w.f.phase == Initializing && w.f.action == FullErase
    ensures var g := Next(w, Pass(Waiting())).f;
            g.phase == Erasing && g.action == FullErase && Untouched(FullErase, g.job) && g.report == w.f.report
            && g.job.totalSectors == TOTAL_SECTORS
  {
  }

  lemma BusyEraseReports(w: World)
    requires w.f.phase == Erasing && w.f.action == FullErase && w.f.report == Report(0, 0)
    requires Untouched(FullErase, w.f.job) && w.f.job.totalSectors == TOTAL_SECTORS
    ensures Next(w, Pass(Waiting())).f.phase == Erasing && Next(w, Pass(Waiting())).f.report.progress == 255
  {
    EarlyProgressIsNotAPercentage(FullErase, w.f.job);
    assert ErasingStep(w.f, Waiting()).job == w.f.job;
  }

  /** A full erase whose first status read finds the chip busy publishes 255. */
  lemma EarlyProgressHappens(w0: World) returns (w: World)
    requires Boot(w0) && w0.f.report == Report(0, 0)
    ensures Reachable(w) && w.f.phase == Erasing && w.f.report.progress == 255
  {
    ReachBoot(w0);
    ReachNext(w0, RequestErase);
    var w1 := Next(w0, RequestErase);
    ReachNext(w1, Pass(Waiting()));
    var w2 := Next(w1, Pass(Waiting()));
    EraseBegins(w1);
    ReachNext(w2, Pass(Waiting()));
    BusyEraseReports(w2);
    w := Next(w2, Pass(Waiting()));
  }

  /** In every reachable idle state without a digest, a failed download arms the next request,
      which then starts on a digest never received as a whole without asking the server again,
      if and only if it failed by a short read. */
  lemma ShortReadArmsNextRequest(w: World, first: Fetch, second: Fetch, o: Oracle) returns (again: World)
    requires Reachable(w) && w.f.phase == Idle && w.f.expectedMd5 == "" && !first.Fetched?
    ensures again == Next(Next(Next(w, RequestRemote(false, first)), Pass(o)), RequestRemote(false, second))
    ensures Reachable(again)
    ensures again.f.phase == Initializing <==> first.ShortRead? || second.Fetched?
    ensures again.f.phase == Initializing ==>
              again.f.expectedMd5 == if first.ShortRead? then first.left else second.digest
    ensures again.f.phase == Error <==> first.NotFetched? && !second.Fetched?
  {
    var failed := Next(w, RequestRemote(false, first));
    ReachNext(w, RequestRemote(false, first));
    assert Admissible(failed.f, Pass(o));
    ReachNext(failed, Pass(o));
    var idle := Next(failed, Pass(o));
    assert idle.f == failed.f.(phase := Idle);
    ReachNext(idle, RequestRemote(false, second));
    again := Next(idle, RequestRemote(false, second));
    match second
    case NotFetched =>
    case ShortRead(left) =>
    case Fetched(digest) =>
  }

  /** A one-byte image of zero, its digest right, on the way to being flashed. */
  ghost predicate ZeroByte(w: World, phase: Phase, job: Job, cell: Byte) {
    && w.f.phase == phase && w.f.action == FlashEmbedded && w.f.job == job
    && w.f.config.image == [0] && SameDigest(w.f.config.md5([0]), w.f.expectedMd5)
    && w.f.chip.cells[0] == cell && w.f.reader == EmbeddedReader(0)
  }

  lemma ZeroByteInit(w: World, o: Oracle)
    requires w.f.phase == Initializing && w.f.action == FlashEmbedded && w.f.chip.pending == None
    requires w.f.config.image == [0] && SameDigest(w.f.config.md5([0]), w.f.expectedMd5)
    requires o == Calm(Fill(0, PAGE_SIZE))
    ensures var v := Next(w, Pass(o));
            ZeroByte(v, Erasing, FreshJob(1), w.f.chip.cells[0]) && v.f.link.direct && v.f.chip.pending == None
  {
  }

  lemma ZeroByteErase(w: World, o: Oracle)
    requires ZeroByte(w, Erasing, FreshJob(1), w.f.chip.cells[0]) && w.f.link.direct && w.f.chip.pending == None
    requires o == Calm(Fill(0, PAGE_SIZE))
    ensures var v := Next(w, Pass(o));
            && ZeroByte(v, Erasing, FreshJob(1).(currentSector := 0), w.f.chip.cells[0])
            && v.f.link.direct && v.f.chip.pending == Some(0)
  {
  }

  lemma ZeroByteErased(w: World, o: Oracle)
    requires ZeroByte(w, Erasing, FreshJob(1).(currentSector := 0), w.f.chip.cells[0])
    requires w.f.chip.pending == Some(0) && o == Calm(Fill(0, PAGE_SIZE))
    ensures ZeroByte(Next(w, Pass(o)), Flashing, FreshJob(1).(currentSector := 1), ERASED)
  {
  }

  lemma ZeroByteBlindFlash(w: World, o: Oracle)
    requires ZeroByte(w, Flashing, FreshJob(1).(currentSector := 1), ERASED) && !w.f.link.direct
    requires o == Calm(Fill(0, PAGE_SIZE))
    ensures var v := Next(w, Pass(o));
            v.f.phase == Success && v.f.chip.cells[0] == ERASED && v.f.config == w.f.config
  {
    assert w.f.config.image[0..1] == [0];
    assert ReadBlock(w.f, o).0 == Some([0]);
    assert Pad([0]) == Fill(0, PAGE_SIZE);
    assert StorePage(w.f.chip, false, 0, Pad([0]), o) == (w.f.chip, true);
    assert w.f.job.received + [0] == [0];
    assert FlashingStep(w.f, o).remaining == 0;
  }

  lemma ZeroByteReadyToFlash(w0: World) returns (w: World)
    requires Boot(w0) && w0.f.config.image == [0] && SameDigest(w0.f.config.md5([0]), w0.f.config.imageMd5)
    ensures Reachable(w) && ZeroByte(w, Flashing, FreshJob(1).(currentSector := 1), ERASED)
  {
    var o := Calm(Fill(0, PAGE_SIZE));
    var w1 := Next(w0, RequestEmbedded);
    ReachBoot(w0);
    ReachNext(w0, RequestEmbedded);
    ZeroByteInit(w1, o);
    ReachNext(w1, Pass(o));
    var w2 := Next(w1, Pass(o));
    ZeroByteErase(w2, o);
    ReachNext(w2, Pass(o));
    var w3 := Next(w2, Pass(o));
    ZeroByteErased(w3, o);
    ReachNext(w3, Pass(o));
    w := Next(w3, Pass(o));
  }

  /** `flash_accessible()` called while flashing takes the bus away from the chip: the
      read-back then verifies nothing and SUCCESS can be reported over an erased page. */
  lemma ProbeDefeatsVerification(w0: World) returns (w: World)
    requires Boot(w0) && w0.f.config.image == [0] && SameDigest(w0.f.config.md5([0]), w0.f.config.imageMd5)
    ensures Reachable(w) && w.f.phase == Success && w.f.action == FlashEmbedded
    ensures !Holds(w.f.chip.cells, w.f.config.image)
  {
    var o := Calm(Fill(0, PAGE_SIZE));
    var ready := ZeroByteReadyToFlash(w0);
    ReachNext(ready, Probe);
    var blind := Next(ready, Probe);
    assert ZeroByte(blind, Flashing, FreshJob(1).(currentSector := 1), ERASED);
    ZeroByteBlindFlash(blind, o);
    ReachNext(blind, Pass(o));
    w := Next(blind, Pass(o));
    assert PagesFor(1) == 1 && w.f.chip.cells[0] != w.f.config.image[0];
  }
}
