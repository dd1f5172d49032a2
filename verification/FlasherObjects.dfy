/** The flasher as the objects the firmware runs: each method is proved to do exactly what
    the step function of `FlasherModel` says, so the theorems about runs apply to it. */
module FlasherObjects {
  import opened Words
  import opened FlasherModel
  import FlasherRuns

  class Satellite1 {
    var state: LinkState
    var direct: bool
    var attempts: nat

    function View(): Link
      reads this
    {
      Link(state, direct, attempts)
    }

    constructor ()
      ensures View() == Link(Detached, false, 0)
    {
      state, direct, attempts := Detached, false, 0;
    }

    method SetSpiFlashDirectAccessMode(enable: bool)
      modifies this
      ensures View() == SetDirect(old(View()), enable)
    {
      if enable {
        state := FlashConnected;
      } else if direct {
        state := Detached;
        attempts := 0;
      }
      direct := enable;
    }

    /** `transfer`: refused while the flash has the bus; `answered` is what the exchange
        with the device, retries included, comes to otherwise. */
    method Transfer(answered: bool) returns (ok: bool)
      ensures ok == (answered && !TransferRefused(View()))
    {
      if direct {
        return false;
      }
      ok := answered;
    }

    method Loop(due: bool, found: bool)
      modifies this
      ensures View() == LinkLoop(old(View()), due, found)
    {
      if state == Detached && attempts <= MAX_CONNECTION_ATTEMPTS && due {
        if attempts == MAX_CONNECTION_ATTEMPTS {
          // only the state callback runs
        } else if found {
          state := XmosConnected;
          attempts := 0;
        }
        attempts := attempts + 1;
      }
    }
  }

  class EmbeddedImageReader {
    const image: seq<Byte>
    var pos: nat

    constructor (image: seq<Byte>)
      ensures this.image == image && pos == 0
    {
      this.image := image;
      pos := 0;
    }

    /** Copies the next block into the buffer and advances past it. */
    method ReadImageBlock(buffer: array<Byte>, blockSize: nat) returns (n: nat)
      requires pos <= |image| && blockSize <= buffer.Length
      modifies this, buffer
      ensures n == if |image| - old(pos) >= blockSize then blockSize else |image| - old(pos)
      ensures pos == old(pos) + n <= |image|
      ensures buffer[..n] == image[old(pos)..pos]
    {
      n := if |image| - pos >= blockSize then blockSize else |image| - pos;
      for i := 0 to n
        invariant pos == old(pos)
        invariant forall k :: 0 <= k < i ==> buffer[k] == image[pos + k]
      {
        buffer[i] := image[pos + i];
      }
      pos := pos + n;
    }
  }

  /** The passes of the model, seen from the middle. */
  lemma InitPassIs(f: Flasher, o: Oracle, g: Flasher, ok: bool)
    requires f.phase == Initializing && (g, ok) == InitFlashing(f, o)
    ensures LoopPass(f, o) == if ok then g.(phase := Erasing) else DeinitFlashing(g).(phase := Error)
  {
  }

  lemma ErasePassIs(f: Flasher, o: Oracle, g: Flasher)
    requires f.phase == Erasing
    requires var s := ErasingStep(f, o); g == Apply(f, s, PublishProgress(f.report, f.action, s.job, o.now))
    ensures var remaining := ErasingStep(f, o).remaining;
            LoopPass(f, o) ==
              if remaining == 0 && f.action == FullErase then DeinitFlashing(g).(phase := Success)
              else if remaining == 0 then g.(phase := Flashing)
              else if remaining < 0 then g.(phase := Error)
              else g
  {
  }

  class XmosFlasher {
    const link: Satellite1
    const config: Config
    var phase: Phase
    var action: Action
    var error: FlasherError
    var chip: Chip
    var embedded: EmbeddedImageReader?
    var remote: bool
    var readerBuffer: array?<Byte>
    var compareBuffer: array?<Byte>
    var job: Job
    var expectedMd5: string
    var report: Report

    ghost predicate Valid()
      reads this, embedded
    {
      && (readerBuffer != null ==> readerBuffer.Length == PAGE_SIZE)
      && (compareBuffer != null ==> compareBuffer.Length == PAGE_SIZE && compareBuffer != readerBuffer)
      && (embedded != null ==> !remote && embedded.image == config.image && embedded.pos <= |config.image|)
      && (phase == Flashing || (phase == Erasing && action != FullErase) ==>
            readerBuffer != null && compareBuffer != null && (embedded != null || remote))
    }

    function View(): Flasher
      reads this, link, embedded
    {
      Flasher(config, phase, action, error, chip, link.View(),
              if embedded != null then EmbeddedReader(embedded.pos) else if remote then RemoteReader else NoReader,
              readerBuffer != null || compareBuffer != null, job, expectedMd5, report)
    }

    /** Nothing is owned now that was not owned before or is new. */
    twostate predicate OwnsNoMore()
      reads this
    {
      && (embedded == null || embedded == old(embedded) || fresh(embedded))
      && (readerBuffer == null || readerBuffer == old(readerBuffer) || fresh(readerBuffer))
      && (compareBuffer == null || compareBuffer == old(compareBuffer) || fresh(compareBuffer))
    }

    /** The objects the flasher owns at the moment. */
    ghost function Repr(): set<object>
      reads this
    {
      {this, link} + (if embedded != null then {embedded} else {})
      + (if readerBuffer != null then {readerBuffer} else {}) + (if compareBuffer != null then {compareBuffer} else {})
    }

    constructor (link: Satellite1, config: Config, chip: Chip, job: Job)
      ensures Valid() && this.link == link && this.config == config && Repr() == {this, link}
      ensures View() == Flasher(config, Idle, FullErase, NoError, chip, link.View(), NoReader, false, job, "", Report(0, 0))
    {
      this.link, this.config, this.chip, this.job := link, config, chip, job;
      phase, action, error := Idle, FullErase, NoError;
      embedded, remote, readerBuffer, compareBuffer := null, false, null, null;
      expectedMd5, report := "", Report(0, 0);
    }

    method FlashEmbeddedImage()
      requires Valid()
      modifies this`phase, this`action, this`error, this`expectedMd5
      ensures Valid() && View() == EmbeddedRequested(old(View()))
    {
      if phase != Idle {
        return;
      }
      if |config.image| == 0 {
        error := NoEmbeddedImageError;
        phase := Error;
        return;
      }
      expectedMd5 := config.imageMd5;
      action := FlashEmbedded;
      phase := Initializing;
    }

    /** `http_get_md5_`; the digest is resized before anything is read into it. */
    method HttpGetMd5(fetched: Fetch) returns (ok: bool)
      modifies this`expectedMd5
      ensures ok == fetched.Fetched?
      ensures expectedMd5 == (match fetched case NotFetched => old(expectedMd5)
                                            case ShortRead(left) => left
                                            case Fetched(digest) => digest)
    {
      match fetched
      case NotFetched => return false;
      case ShortRead(left) =>
        expectedMd5 := left;
        return false;
      case Fetched(digest) =>
        expectedMd5 := digest;
        return true;
    }

    method FlashRemoteImage(urlEmpty: bool, fetched: Fetch)
      requires Valid()
      modifies this`phase, this`action, this`error, this`expectedMd5
      ensures Valid() && View() == RemoteRequested(old(View()), urlEmpty, fetched)
    {
      if phase != Idle {
        return;
      }
      if urlEmpty {
        error := BadUrl;
        phase := Error;
        return;
      }
      if expectedMd5 == "" {
        var ok := HttpGetMd5(fetched);
        if !ok {
          error := Md5Invalid;
          phase := Error;
          return;
        }
      }
      action := FlashRemote;
      phase := Initializing;
    }

    method EraseMemory()
      requires Valid()
      modifies this`phase, this`action
      ensures Valid() && View() == EraseRequested(old(View()))
    {
      if phase == Idle {
        action := FullErase;
        phase := Initializing;
      }
    }

    method FlashAccessible()
      requires Valid()
      modifies link
      ensures Valid() && View() == Probed(old(View()))
    {
      link.SetSpiFlashDirectAccessMode(true);
      link.SetSpiFlashDirectAccessMode(false);
    }

    method InitFlashing(o: Oracle) returns (ok: bool)
      requires Valid() && phase == Initializing
      modifies this`embedded, this`remote, this`readerBuffer, this`compareBuffer, this`error, this`job, this`report,
               link
      ensures OwnsNoMore()
      ensures Valid() && (View(), ok) == FlasherModel.InitFlashing(old(View()), o)
      ensures ok && action != FullErase ==>
                readerBuffer != null && compareBuffer != null && (embedded != null || remote)
    {
      link.SetSpiFlashDirectAccessMode(true);
      if action == FullErase {
        job := job.(totalSectors := TOTAL_SECTORS, currentSector := -1);
        return true;
      }
      ok := InitImage(o);
    }

    method InitImage(o: Oracle) returns (ok: bool)
      requires Valid() && phase == Initializing && action != FullErase
      modifies this`embedded, this`remote, this`readerBuffer, this`compareBuffer, this`error, this`job, this`report
      ensures OwnsNoMore()
      ensures Valid() && (View(), ok) == FlasherModel.InitImage(old(View()), o)
      ensures ok ==> readerBuffer != null && compareBuffer != null && (embedded != null || remote)
    {
      OpenReader();
      if action == FlashRemote && !o.readerOk {
        error := InitReaderError;
        return false;
      }
      AllocateBuffers(o.malloc1, o.malloc2);
      if !o.malloc1 || !o.malloc2 {
        error := InitFlashError;
        return false;
      }
      StartJob(if action == FlashEmbedded then |config.image| else o.remoteSize);
      ok := true;
    }

    method StartJob(size: nat)
      modifies this`job, this`report
      ensures job == FreshJob(size) && report == old(report).(progress := 0)
    {
      var pages := (size + PAGE_SIZE - 1) / PAGE_SIZE;
      var sectors := (pages * PAGE_SIZE + SECTOR_SIZE - 1) / SECTOR_SIZE;
      job := Job(sectors, -1, size, size, 0, []);
      report := report.(progress := 0);
    }

    method OpenReader()
      requires Valid() && phase == Initializing && action != FullErase
      modifies this`embedded, this`remote
      ensures embedded == null || fresh(embedded)
      ensures Valid() && (embedded != null || remote)
      ensures View() == old(View()).(reader := ReaderFor(action))
    {
      if action == FlashEmbedded {
        embedded := new EmbeddedImageReader(config.image);
        remote := false;
      } else {
        embedded, remote := null, true;
      }
    }

    method AllocateBuffers(first: bool, second: bool)
      requires Valid() && phase == Initializing
      modifies this`readerBuffer, this`compareBuffer
      ensures OwnsNoMore()
      ensures Valid() && (first && second ==> readerBuffer != null && compareBuffer != null)
      ensures View() == old(View()).(buffers := old(View()).buffers || first)
    {
      if first {
        readerBuffer := new Byte[PAGE_SIZE];
        if second {
          compareBuffer := new Byte[PAGE_SIZE];
        }
      }
    }

    method DeinitFlashing(next: Phase)
      requires Valid() && (next == Success || next == Error)
      modifies this, link
      ensures Repr() == {this, link}
      ensures Valid() && View() == FlasherModel.DeinitFlashing(old(View())).(phase := next)
    {
      readerBuffer := null;
      compareBuffer := null;
      embedded, remote := null, false;
      expectedMd5 := "";
      link.SetSpiFlashDirectAccessMode(false);
      phase := next;
    }

    method ErasingStep(o: Oracle) returns (remaining: int)
      requires Valid() && phase == Erasing
      modifies this`chip, this`job, this`error
      ensures Valid()
      ensures var s := FlasherModel.ErasingStep(old(View()), o);
              remaining == s.remaining && View() == Apply(old(View()), s, old(View()).report)
    {
      if o.busy {
        return job.totalSectors - job.currentSector;
      }
      remaining := EraseNext(o);
    }

    /** The chip is idle: a pending erase is over and the next one is issued. */
    method EraseNext(o: Oracle) returns (remaining: int)
      requires Valid() && phase == Erasing && !o.busy
      modifies this`chip, this`job, this`error
      ensures Valid()
      ensures var s := FlasherModel.ErasingStep(old(View()), o);
              remaining == s.remaining && View() == Apply(old(View()), s, old(View()).report)
    {
      chip := Settle(chip);
      job := job.(currentSector := job.currentSector + 1);
      if 0 <= job.currentSector < job.totalSectors {
        if !o.writeEnabled {
          error := WriteToFlashError;
          return -1;
        }
        if link.direct {
          chip := StartErase(chip, job.currentSector, o.disturbed);
        }
      }
      return job.totalSectors - job.currentSector;
    }

    /** `read_image_block` of whichever reader is open, into `readerBuffer`. */
    method FetchBlock(o: Oracle) returns (n: int)
      requires Valid() && phase == Flashing
      modifies embedded, readerBuffer
      ensures Valid()
      ensures var (block, reader) := ReadBlock(old(View()), o);
              && View() == old(View()).(reader := reader)
              && (block.None? ==> n == -1)
              && (block.Some? ==> n == |block.value| && readerBuffer[..n] == block.value)
    {
      if embedded != null {
        n := embedded.ReadImageBlock(readerBuffer, PAGE_SIZE);
        return;
      }
      if o.remoteBlock.None? || |o.remoteBlock.value| > PAGE_SIZE {
        return -1;
      }
      var block := o.remoteBlock.value;
      for i := 0 to |block|
        invariant forall k :: 0 <= k < i ==> readerBuffer[k] == block[k]
      {
        readerBuffer[i] := block[i];
      }
      n := |block|;
    }

    /** Zeros from `from` to the end of the page. */
    method PadBuffer(from: nat)
      requires Valid() && readerBuffer != null && from <= PAGE_SIZE
      modifies readerBuffer
      ensures readerBuffer[..] == Pad(old(readerBuffer[..from]))
    {
      for i := from to PAGE_SIZE
        invariant readerBuffer[..from] == old(readerBuffer[..from])
        invariant forall k :: from <= k < i ==> readerBuffer[k] == 0
      {
        readerBuffer[i] := 0;
      }
    }

    /** `read_page_` into the compare buffer. */
    method ReadPage(w: WriteOutcome)
      requires Valid() && compareBuffer != null
      modifies compareBuffer
      ensures compareBuffer[..] == ReadBack(chip, OnChip(link.direct, job.pagePos), job.pagePos, w)
    {
      var onChip := OnChip(link.direct, job.pagePos);
      var back := ReadBack(chip, onChip, job.pagePos, w);
      for i := 0 to PAGE_SIZE
        invariant forall k :: 0 <= k < i ==> compareBuffer[k] == back[k]
      {
        compareBuffer[i] := back[i];
      }
    }

    /** `memcmp` of the two buffers. */
    method BuffersAgree() returns (same: bool)
      requires Valid() && readerBuffer != null && compareBuffer != null
      ensures same == (readerBuffer[..] == compareBuffer[..])
    {
      var i := 0;
      while i < PAGE_SIZE && readerBuffer[i] == compareBuffer[i]
        invariant 0 <= i <= PAGE_SIZE
        invariant forall k :: 0 <= k < i ==> readerBuffer[k] == compareBuffer[k]
      {
        i := i + 1;
      }
      same := i == PAGE_SIZE;
      if !same {
        assert readerBuffer[..][i] != compareBuffer[..][i];
      }
    }

    /** `write_page_` followed by the read-back and the comparison. */
    method WriteAndCompare(w: WriteOutcome) returns (same: bool)
      requires Valid() && readerBuffer != null && compareBuffer != null
      modifies this`chip, compareBuffer
      ensures var onChip := OnChip(link.direct, job.pagePos);
              && chip == WritePage(old(chip), onChip, job.pagePos, w)
              && same == (ReadBack(chip, onChip, job.pagePos, w) == readerBuffer[..])
      ensures readerBuffer[..] == old(readerBuffer[..])
    {
      if link.direct && job.pagePos % PAGE_SIZE == 0 {
        chip := chip.(cells := Patch(chip.cells, PageBase(job.pagePos), w.cells));
      }
      ReadPage(w);
      same := BuffersAgree();
    }

    method StorePage(page: Page, o: Oracle) returns (verified: bool)
      requires Valid() && readerBuffer != null && compareBuffer != null && readerBuffer[..] == page
      modifies this`chip, compareBuffer
      ensures (chip, verified) ==
              FlasherModel.StorePage(old(chip), OnChip(link.direct, job.pagePos), job.pagePos, page, o)
    {
      var same := WriteAndCompare(o.first);
      if same {
        return true;
      }
      same := WriteAndCompare(o.second);
      verified := o.second.reported && same;
    }

    /** The step once `block` lies at the start of the reader buffer. */
    method CommitBlock(block: seq<Byte>, o: Oracle, ghost f: Flasher) returns (remaining: int)
      requires Valid() && phase == Flashing && |block| <= PAGE_SIZE && readerBuffer[..|block|] == block && f == View()
      modifies this`chip, this`job, this`error, readerBuffer, compareBuffer
      ensures var stored := FlasherModel.StorePage(f.chip, OnChip(f.link.direct, f.job.pagePos), f.job.pagePos, Pad(block), o);
              Stepped(chip, job, f.reader, error, remaining) == FlasherModel.CommitBlock(f, block, f.reader, stored)
    {
      job := job.(received := job.received + block, bytesRemaining := (job.bytesRemaining - |block|) % U32_MOD);
      if |block| != PAGE_SIZE && job.bytesRemaining != 0 {
        error := ConnectionError;
        return -1;
      }
      PadBuffer(|block|);
      var verified := StorePage(Pad(block), o);
      if !verified {
        error := WriteToFlashError;
        return -1;
      }
      job := job.(pagePos := job.pagePos + PAGE_SIZE);
      if job.bytesRemaining == 0 && !SameDigest(config.md5(job.received), expectedMd5) {
        error := Md5MismatchError;
        return -1;
      }
      remaining := SignedInt(job.bytesRemaining);
    }

    method FlashingStep(o: Oracle) returns (remaining: int)
      requires Valid() && phase == Flashing
      modifies this`chip, this`job, this`error, embedded, readerBuffer, compareBuffer
      ensures Valid()
      ensures var s := FlasherModel.FlashingStep(old(View()), o);
              remaining == s.remaining && View() == Apply(old(View()), s, old(View()).report)
    {
      var n := FetchBlock(o);
      if n < 0 {
        error := ConnectionError;
        return -1;
      }
      remaining := CommitBlock(readerBuffer[..n], o, View());
    }

    method PublishProgressNow(now: nat)
      requires Valid()
      modifies this`report
      ensures Valid()
      ensures View() == old(View()).(report := PublishProgress(old(View()).report, action, job, now))
    {
      if Elapsed(now, report.lastPublished) > 1000 {
        var p := Percent(action, job);
        report := Report(if p.Some? then p.value else report.progress, now);
      }
    }

    method InitPass(o: Oracle)
      requires Valid() && phase == Initializing
      modifies this, link
      ensures OwnsNoMore()
      ensures Valid() && View() == LoopPass(old(View()), o)
    {
      ghost var f := View();
      var ok := InitFlashing(o);
      InitPassIs(f, o, View(), ok);
      if ok {
        phase := Erasing;
      } else {
        DeinitFlashing(Error);
      }
    }

    method ErasePass(o: Oracle)
      requires Valid() && phase == Erasing
      modifies this, link
      ensures OwnsNoMore()
      ensures Valid() && View() == LoopPass(old(View()), o)
    {
      ghost var f := View();
      var remaining := ErasingStep(o);
      PublishProgressNow(o.now);
      ErasePassIs(f, o, View());
      if remaining == 0 && action == FullErase {
        DeinitFlashing(Success);
      } else if remaining == 0 {
        phase := Flashing;
      } else if remaining < 0 {
        phase := Error;
      }
    }

    method FlashPass(o: Oracle)
      requires Valid() && phase == Flashing
      modifies this, link, embedded, readerBuffer, compareBuffer
      ensures OwnsNoMore()
      ensures Valid() && View() == LoopPass(old(View()), o)
    {
      var remaining := FlashingStep(o);
      PublishProgressNow(o.now);
      if remaining == 0 {
        DeinitFlashing(Success);
      } else if remaining < 0 {
        DeinitFlashing(Error);
      }
    }

    method Loop(o: Oracle)
      requires Valid()
      modifies this, link, embedded, readerBuffer, compareBuffer
      ensures OwnsNoMore()
      ensures Valid() && View() == LoopPass(old(View()), o)
    {
      match phase
      case Idle =>
      case Initializing => InitPass(o);
      case Erasing => ErasePass(o);
      case Flashing => FlashPass(o);
      case Success => phase := Idle;
      case Error => phase := Idle;
    }

    method SetMd5Expected(md5: string)
      requires Valid()
      modifies this`expectedMd5
      ensures Valid() && View() == old(View()).(expectedMd5 := md5)
    {
      expectedMd5 := md5;
    }

    method LinkPass(due: bool, found: bool)
      requires Valid()
      modifies link
      ensures Valid() && View() == old(View()).(link := LinkLoop(old(View()).link, due, found))
    {
      link.Loop(due, found);
    }

    method Request(e: Event)
      requires Valid() && (e.RequestErase? || e.RequestRemote? || e.RequestEmbedded?)
      modifies this`phase, this`action, this`error, this`expectedMd5
      ensures Valid() && View() == Step(old(View()), e)
    {
      match e
      case RequestErase => EraseMemory();
      case RequestRemote(urlEmpty, fetched) => FlashRemoteImage(urlEmpty, fetched);
      case RequestEmbedded => FlashEmbeddedImage();
    }

    method Take(e: Event)
      requires Valid()
      modifies Repr()
      ensures OwnsNoMore()
      ensures Valid() && View() == Step(old(View()), e)
    {
      match e
      case Pass(o) => Loop(o);
      case SetMd5(md5) => SetMd5Expected(md5);
      case Probe => FlashAccessible();
      case LinkPass(due, found) => LinkPass(due, found);
      case _ => Request(e);
    }
  }

  /** A new flasher under any events the environment can produce: when it shows SUCCESS for
      an image and nobody probed half-way, the image is on its chip. */
  method Schedule(config: Config, chip: Chip, es: seq<Event>) returns (flasher: XmosFlasher, ghost w: FlasherRuns.World)
    requires |config.image| <= FLASH_SIZE && chip.pending == None
    ensures fresh(flasher) && flasher.View() == w.f && FlasherRuns.Reachable(w)
    ensures flasher.phase == Success && flasher.action != FullErase && !w.h.blinded ==>
              FlasherRuns.Holds(flasher.chip.cells, flasher.job.received)
    ensures flasher.phase == Success && flasher.action == FlashEmbedded ==> flasher.job.received == config.image
  {
    var link := new Satellite1();
    flasher := new XmosFlasher(link, config, chip, Job(0, -1, 0, 0, 0, []));
    w := FlasherRuns.World(
      flasher.View(),
      FlasherRuns.History(chip.cells, {}, 0, true, [], "", false, false, chip.cells, None, None, false, 0, false));
    FlasherRuns.ReachBoot(w);
    for i := 0 to |es|
      invariant fresh(flasher) && fresh(flasher.Repr()) && flasher.Valid() && flasher.config == config
      invariant flasher.View() == w.f && FlasherRuns.Reachable(w)
    {
      if FlasherRuns.Admissible(flasher.View(), es[i]) {
        FlasherRuns.ReachNext(w, es[i]);
        w := FlasherRuns.Next(w, es[i]);
        flasher.Take(es[i]);
      }
    }
    FlasherRuns.ReachableKeeps(w);
  }
}
