// Progress of publication (src/artifacts/context.ts): every call of a process
// brings it nearer its own end, whatever the others do, and writers of one
// identical artifact never fail each other.
module PublicationProgress {
  import opened PublicationDisk
  import opened PublicationProtocol
  import opened PublicationSafety

  // ---- How far a process is from its end --------------------------------------

  // Compared from the left: the stage of the write, of the publication, of the
  // read or sweep, of the scan, and what is left of its list.
  datatype Rank = Rank(writing: nat, publishing: nat, reading: nat, scanning: nat, left: nat)

  predicate Below(a: Rank, b: Rank) {
    || a.writing < b.writing
    || (a.writing == b.writing && (
        || a.publishing < b.publishing
        || (a.publishing == b.publishing && (
            || a.reading < b.reading
            || (a.reading == b.reading && (
                || a.scanning < b.scanning
                || (a.scanning == b.scanning && a.left < b.left)))))))
  }

  function ScanStage(s: Scan): nat {
    if s.ScanList? then 2 else if s.ScanDone? || s.ScanBad? then 0 else 1
  }

  function ScanLeft(s: Scan): nat {
    match s
    case ScanNext(todo, _, _) => 3 * |todo|
    case ScanProve(_, todo, _, _) => 3 * |todo| + 2
    case ScanIdentify(_, _, todo, _, _) => 3 * |todo| + 1
    case _ => 0
  }

  function ReadStage(r: Reading): nat {
    match r
    case ReadStat => 8
    case ReadCheck(_, _, _, viaFd, _, _) => if viaFd then 3 else 7
    case ReadRecheck(_, _, viaFd, _) => if viaFd then 2 else 6
    case ReadOpen(_, _) => 5
    case ReadFstat(_, _, _) => 4
    case ReadContent(_, _) => 1
    case _ => 0
  }

  function ReadRank(writing: nat, publishing: nat, r: Reading): Rank {
    if r.ReadCheck? then Rank(writing, publishing, ReadStage(r), ScanStage(r.scan), ScanLeft(r.scan))
    else Rank(writing, publishing, ReadStage(r), 0, 0)
  }

  function SweepRank(writing: nat, publishing: nat, s: Sweep): Rank {
    match s
    case SweepStat => Rank(writing, publishing, 3, 0, 0)
    case SweepScan(_, scan) => Rank(writing, publishing, 2, ScanStage(scan), ScanLeft(scan))
    case SweepTemp(links) => Rank(writing, publishing, 1, 0, 2 * |links|)
    case SweepRecord(_, links) => Rank(writing, publishing, 1, 0, 2 * |links| + 1)
    case _ => Rank(writing, publishing, 0, 0, 0)
  }

  function PublishRank(writing: nat, p: Publishing): Rank {
    match p
    case Checking(r) => ReadRank(writing, 9, r)
    case Sweeping(s) => SweepRank(writing, 8, s)
    case Creating => Rank(writing, 7, 0, 0, 0)
    case Filling(_) => Rank(writing, 6, 0, 0, 0)
    case OpeningRecord(_) => Rank(writing, 5, 0, 0, 0)
    case SealingRecord(_) => Rank(writing, 4, 0, 0, 0)
    case Linking(_) => Rank(writing, 3, 0, 0, 0)
    case DroppingTemp(_, _) => Rank(writing, 2, 1, 0, 0)
    case DroppingRecord(_, _) => Rank(writing, 2, 0, 0, 0)
    case Verifying(r) => ReadRank(writing, 1, r)
    case _ => Rank(writing, 0, 0, 0, 0)
  }

  function RankOf(p: Process): Rank {
    match p
    case Writer(_, LookPayload(r)) => ReadRank(4, 0, r)
    case Writer(_, LookReceipt(r, _)) => ReadRank(3, 0, r)
    case Writer(_, PutReceipt(q)) => PublishRank(2, q)
    case Writer(_, PutPayload(q)) => PublishRank(1, q)
    case Writer(_, _) => Rank(0, 0, 0, 0, 0)
    case Reader(_, r) => ReadRank(0, 0, r)
  }

  predicate Finished(p: Process) {
    match p
    case Writer(_, w) => WriteFinished(w)
    case Reader(_, r) => ReadFinished(r)
  }

  // ---- Every call lowers it -----------------------------------------------------

  lemma SmallerWithout(todo: set<nat>, pick: nat)
    requires pick in todo
    ensures |todo - {pick}| == |todo| - 1
  {
  }

  lemma ScanLowers(d: Disk, path: Path, ino: nat, s: Scan, pick: nat)
    requires ScanChoice(s, pick) && !s.ScanDone? && !s.ScanBad?
    ensures var t := ScanStep(d, path, ino, s, pick);
            ScanStage(t) < ScanStage(s) || (ScanStage(t) == ScanStage(s) && ScanLeft(t) < ScanLeft(s))
  {
    if s.ScanNext? && s.todo != {} { SmallerWithout(s.todo, pick); }
  }

  lemma ReadLowers(d: Disk, path: Path, r: Reading, pick: nat, writing: nat, publishing: nat)
    requires ReadChoice(r, pick) && !ReadFinished(r)
    ensures Below(ReadRank(writing, publishing, ReadStep(d, path, r, pick)), ReadRank(writing, publishing, r))
  {
    if r.ReadCheck? && !r.scan.ScanDone? && !r.scan.ScanBad? {
      ScanLowers(d, path, r.stat, r.scan, pick);
    }
  }

  lemma SweepLowers(d: Disk, path: Path, s: Sweep, pick: nat, writing: nat, publishing: nat)
    requires SweepChoice(s, pick) && !s.Swept? && !s.SweepRefused?
    ensures Below(SweepRank(writing, publishing, SweepStep(d, path, s, pick).1), SweepRank(writing, publishing, s))
  {
    match s
    case SweepScan(ino, scan) =>
      if !scan.ScanDone? && !scan.ScanBad? { ScanLowers(d, path, ino, scan, pick); }
    case SweepTemp(links) =>
      if links != {} { SmallerWithout(links, pick); }
    case _ =>
  }

  lemma PublishLowers(d: Disk, path: Path, bytes: Bytes, p: Publishing, pick: nat, ino: nat, writing: nat)
    requires PublishChoice(d, p, pick, ino) && !PublishFinished(p)
    ensures Below(PublishRank(writing, PublishStep(d, path, bytes, p, pick, ino).1), PublishRank(writing, p))
  {
    hide Below, ReadStep, SweepStep, LinkTarget, UnlinkTemp, Fill, Create;
    LeftmostDecides();
    match p
    case Checking(r) => if !ReadFinished(r) { ReadLowers(d, path, r, pick, writing, 9); }
    case Verifying(r) => if !ReadFinished(r) { ReadLowers(d, path, r, pick, writing, 1); }
    case Sweeping(s) => if !s.Swept? && !s.SweepRefused? { SweepLowers(d, path, s, pick, writing, 8); }
    case _ =>
  }

  lemma LeftmostDecides()
    ensures forall a: Rank, b: Rank :: a.writing < b.writing ==> Below(a, b)
    ensures forall a: Rank, b: Rank :: a.writing == b.writing && a.publishing < b.publishing ==> Below(a, b)
    ensures forall a: Rank, b: Rank :: a.writing == b.writing && a.publishing == b.publishing && a.reading < b.reading ==> Below(a, b)
  {
  }

  // Whatever the disk holds, a call of an unfinished process lowers its rank.
  lemma EveryCallLowersRank(d: Disk, p: Process, pick: nat, ino: nat)
    requires ProcessChoice(d, p, pick, ino) && !Finished(p)
    ensures Below(RankOf(ProcessStep(d, p, pick, ino).1), RankOf(p))
  {
    hide Below, ReadStep, PublishStep;
    LeftmostDecides();
    match p
    case Reader(path, r) => ReadLowers(d, path, r, pick, 0, 0);
    case Writer(job, LookPayload(r)) => if !ReadFinished(r) { ReadLowers(d, PayloadPath(job.name), r, pick, 4, 0); }
    case Writer(job, LookReceipt(r, _)) => if !ReadFinished(r) { ReadLowers(d, ReceiptPath(job.name), r, pick, 3, 0); }
    case Writer(job, PutReceipt(q)) =>
      if !PublishFinished(q) { PublishLowers(d, ReceiptPath(job.name), ReceiptOf(job), q, pick, ino, 2); }
    case Writer(job, PutPayload(q)) =>
      if !PublishFinished(q) { PublishLowers(d, PayloadPath(job.name), PayloadOf(job), q, pick, ino, 1); }
    case Writer(_, _) =>
  }

  // ---- Every process ends ---------------------------------------------------------

  // A run that goes on for ever.
  ghost predicate Endless(at: nat -> World, step: nat -> Step) {
    forall n: nat :: Enabled(at(n), step(n)) && at(n + 1) == Apply(at(n), step(n))
  }

  // From here on a process is there, unfinished, and keeps getting calls.
  ghost predicate NeverEnds(at: nat -> World, step: nat -> Step, id: nat, start: nat) {
    && (forall n: nat :: n >= start ==> id in at(n).procs && !Finished(at(n).procs[id]))
    && (forall n: nat :: n >= start ==> CalledAgain(step, id, n))
  }

  ghost predicate CalledAgain(step: nat -> Step, id: nat, n: nat) {
    exists m: nat :: m >= n && Calls(step(m), id)
  }

  predicate Calls(step: Step, id: nat) {
    step.Advance? && step.id == id
  }

  // What others do leaves a process where it is.
  lemma {:induction false} OthersLeaveItAlone(at: nat -> World, step: nat -> Step, id: nat, n: nat, m: nat)
    requires Endless(at, step) && n <= m
    requires forall k: nat :: n <= k <= m ==> id in at(k).procs
    requires forall k: nat :: n <= k < m ==> !Calls(step(k), id)
    ensures at(m).procs[id] == at(n).procs[id]
    decreases m - n
  {
    if n < m {
      OthersLeaveItAlone(at, step, id, n, m - 1);
      assert at(m - 1 + 1) == Apply(at(m - 1), step(m - 1));
    }
  }

  lemma {:induction false} FirstCall(step: nat -> Step, id: nat, n: nat, m: nat) returns (k: nat)
    requires n <= m && Calls(step(m), id)
    ensures n <= k && Calls(step(k), id) && forall i: nat :: n <= i < k ==> !Calls(step(i), id)
    decreases m - n
  {
    if Calls(step(n), id) {
      k := n;
    } else {
      k := FirstCall(step, id, n + 1, m);
    }
  }

  // In no interleaving, however long and whoever crashes, does a process that
  // keeps getting calls go on for ever.
  lemma {:induction false} EveryProcessEnds(at: nat -> World, step: nat -> Step, id: nat, start: nat)
    requires Endless(at, step) && id in at(start).procs
    ensures !NeverEnds(at, step, id, start)
    decreases RankOf(at(start).procs[id]).writing, RankOf(at(start).procs[id]).publishing,
              RankOf(at(start).procs[id]).reading, RankOf(at(start).procs[id]).scanning, RankOf(at(start).procs[id]).left
  {
    hide RankOf, ProcessStep;
    if NeverEnds(at, step, id, start) {
      assert CalledAgain(step, id, start);
      var m: nat :| m >= start && Calls(step(m), id);
      var k := FirstCall(step, id, start, m);
      OthersLeaveItAlone(at, step, id, start, k);
      assert at(k + 1) == Apply(at(k), step(k));
      EveryCallLowersRank(at(k).disk, at(k).procs[id], step(k).pick, step(k).ino);
      EveryProcessEnds(at, step, id, k + 1);
    }
  }

  // ---- Writers of one identical artifact ------------------------------------------

  // Nothing but this very artifact is there under its name.
  ghost predicate Unspoiled(d: Disk, job: Job)
    requires Sound(d)
  {
    && !Conflicts(d, ReceiptPath(job.name), ReceiptOf(job))
    && !Conflicts(d, PayloadPath(job.name), PayloadOf(job))
  }

  predicate SameArtifact(p: Process, job: Job) {
    p.Writer? && p.job.name == job.name ==> p.job == job
  }

  // Every writer of this name in the run writes this artifact.
  predicate OnlyThisArtifact(steps: seq<Step>, job: Job) {
    forall i :: 0 <= i < |steps| && steps[i].Spawn? ==> SameArtifact(steps[i].process, job)
  }

  // The only names a writer can create are its own pair's, with its own bytes.
  lemma WriteNamesOnlyItsPair(d: Disk, job: Job, w: Writing, pick: nat, ino: nat)
    requires Sound(d) && WriteOk(d, job, w) && WriteChoice(d, w, pick, ino) && Held(Writer(job, w)) <= d.minted
    ensures var e := WriteStep(d, job, w, pick, ino).0;
            && Sound(e)
            && forall p :: p in e.targets && p !in d.targets ==>
                 || (p == ReceiptPath(job.name) && Content(e, p) == ReceiptOf(job))
                 || (p == PayloadPath(job.name) && Content(e, p) == PayloadOf(job))
  {
    hide Sound, PublishOk, ReadOk, PublishChoice, PublishStep, ReadStep;
    if (w.PutReceipt? || w.PutPayload?) && !PublishFinished(w.p) {
      if w.PutReceipt? {
        PublishNamesOnlyItsPath(d, ReceiptPath(job.name), ReceiptOf(job), w.p, pick, ino);
      } else {
        PublishNamesOnlyItsPath(d, PayloadPath(job.name), PayloadOf(job), w.p, pick, ino);
      }
    }
  }

  lemma StepKeepsUnspoiled(w: World, step: Step, job: Job)
    requires WorldOk(w) && Enabled(w, step) && Unspoiled(w.disk, job)
    requires forall id :: id in w.procs ==> SameArtifact(w.procs[id], job)
    ensures Sound(Apply(w, step).disk) && Unspoiled(Apply(w, step).disk, job)
  {
    hide Sound, WriteOk, WriteChoice, WriteStep, ReadStep;
    StepKeepsWorld(w, step);
    if step.Advance? && w.procs[step.id].Writer? {
      var p := w.procs[step.id];
      assert ProcessOk(w.disk, p) && SameArtifact(p, job);
      WriteNamesOnlyItsPair(w.disk, p.job, p.w, step.pick, step.ino);
    }
  }

  lemma {:induction false} RunStaysUnspoiled(w: World, steps: seq<Step>, job: Job)
    requires Initial(w) && Legal(w, steps) && Unspoiled(w.disk, job) && OnlyThisArtifact(steps, job)
    ensures WorldOk(After(w, steps)) && Unspoiled(After(w, steps).disk, job)
    ensures forall id :: id in After(w, steps).procs ==> SameArtifact(After(w, steps).procs[id], job)
  {
    hide Sound, ProcessOk, WriteStep, ReadStep;
    EveryRunIsSafe(w, steps);
    if |steps| > 0 {
      var last := |steps| - 1;
      RunStaysUnspoiled(w, steps[..last], job);
      StepKeepsUnspoiled(After(w, steps[..last]), steps[last], job);
    }
  }

  // However many identical writers race, crash and retry, none of them ever fails.
  lemma IdenticalWritersNeverFail(w: World, steps: seq<Step>, id: nat, job: Job, now: Writing)
    requires Initial(w) && Legal(w, steps) && Unspoiled(w.disk, job) && OnlyThisArtifact(steps, job)
    requires id in After(w, steps).procs && After(w, steps).procs[id] == Writer(job, now)
    ensures !now.WriteFailed?
  {
    hide Sound;
    RunStaysUnspoiled(w, steps, job);
    assert ProcessOk(After(w, steps).disk, Writer(job, now));
  }
}
