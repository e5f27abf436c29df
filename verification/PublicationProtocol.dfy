// Artifact publication as a protocol (src/artifacts/context.ts): writers and
// readers advance one file-system call at a time, in any interleaving, and any
// of them can stop for ever between two calls.
module PublicationProtocol {
  import opened PublicationDisk

  datatype Refusal =
    | DifferentBytes        // another artifact already has this path
    | ForeignHardlinks
    | ProofMismatch
    | ProofHashMismatch
    | ChangedWhileOpening
    | ReceiptMissing

  // ---- stagingLinks: which names of a target are proven staging files ---------

  datatype Scan =
    | ScanList
    | ScanNext(todo: set<nat>, owned: set<nat>, shas: set<Sha>)
    | ScanProve(u: nat, todo: set<nat>, owned: set<nat>, shas: set<Sha>)
    | ScanIdentify(u: nat, proof: Proof, todo: set<nat>, owned: set<nat>, shas: set<Sha>)
    | ScanDone(owned: set<nat>, shas: set<Sha>)
    | ScanBad

  // `pick` is the next entry in the directory's own order.
  predicate ScanChoice(s: Scan, pick: nat) {
    s.ScanNext? && s.todo != {} ==> pick in s.todo
  }

  function ScanStep(d: Disk, path: Path, ino: nat, s: Scan, pick: nat): Scan
    requires ScanChoice(s, pick)
  {
    match s
    case ScanList => ScanNext(d.temps.Keys, {}, {})
    case ScanNext(todo, owned, shas) =>
      if todo == {} then ScanDone(owned, shas)
      else if pick in d.temps && d.temps[pick] == ino then ScanProve(pick, todo - {pick}, owned, shas)
      else ScanNext(todo - {pick}, owned, shas)
    case ScanProve(u, todo, owned, shas) =>
      if u !in d.records then ScanNext(todo, owned, shas)
      else if d.records[u].None? then ScanBad
      else ScanIdentify(u, d.records[u].value, todo, owned, shas)
    case ScanIdentify(u, proof, todo, owned, shas) =>
      if u !in d.temps then ScanNext(todo, owned, shas)
      else if proof == Proof(path, u, d.temps[u], proof.sha) then ScanNext(todo, owned + {u}, shas + {proof.sha})
      else ScanBad
    case ScanDone(_, _) => s
    case ScanBad => s
  }

  // ---- readRegular --------------------------------------------------------------

  datatype Reading =
    | ReadStat
    | ReadCheck(ino: nat, stat: nat, nlink: nat, viaFd: bool, shas: set<Sha>, scan: Scan)
    | ReadRecheck(ino: nat, stat: nat, viaFd: bool, shas: set<Sha>)
    | ReadOpen(ino: nat, shas: set<Sha>)
    | ReadFstat(ino: nat, fd: nat, shas: set<Sha>)
    | ReadContent(fd: nat, shas: set<Sha>)
    | ReadGot(bytes: Bytes)
    | ReadMissing
    | ReadRefused(why: Refusal)

  predicate ReadFinished(r: Reading) {
    r.ReadGot? || r.ReadMissing? || r.ReadRefused?
  }

  function Checked(ino: nat, stat: nat, viaFd: bool, shas: set<Sha>): Reading {
    if !viaFd then ReadOpen(ino, shas)
    else if stat != ino then ReadRefused(ChangedWhileOpening)
    else ReadContent(stat, shas)
  }

  function CheckStat(ino: nat, stat: nat, nlink: nat, viaFd: bool, shas: set<Sha>): Reading {
    if nlink == 1 then Checked(ino, stat, viaFd, shas)
    else ReadCheck(ino, stat, nlink, viaFd, shas, ScanList)
  }

  predicate ReadChoice(r: Reading, pick: nat) {
    r.ReadCheck? ==> ScanChoice(r.scan, pick)
  }

  function ReadStep(d: Disk, path: Path, r: Reading, pick: nat): Reading
    requires ReadChoice(r, pick)
  {
    match r
    case ReadStat =>
      if path !in d.targets then ReadMissing
      else CheckStat(d.targets[path], d.targets[path], LinkCount(d, d.targets[path]), false, {})
    case ReadCheck(ino, stat, nlink, viaFd, shas, ScanDone(owned, found)) =>
      if nlink == |owned| + 1 then Checked(ino, stat, viaFd, shas + found)
      else ReadRecheck(ino, stat, viaFd, shas + found)
    case ReadCheck(_, _, _, _, _, ScanBad) => ReadRefused(ProofMismatch)
    case ReadCheck(ino, stat, nlink, viaFd, shas, scan) =>
      ReadCheck(ino, stat, nlink, viaFd, shas, ScanStep(d, path, stat, scan, pick))
    case ReadRecheck(ino, stat, viaFd, shas) =>
      if path in d.targets && d.targets[path] == stat && LinkCount(d, stat) == 1
      then Checked(ino, stat, viaFd, shas)
      else ReadRefused(ForeignHardlinks)
    case ReadOpen(ino, shas) =>
      if path in d.targets then ReadFstat(ino, d.targets[path], shas) else ReadRefused(ChangedWhileOpening)
    case ReadFstat(ino, fd, shas) => CheckStat(ino, fd, LinkCount(d, fd), true, shas)
    case ReadContent(fd, shas) =>
      if fd !in d.inodes then ReadRefused(ChangedWhileOpening)
      else if exists sha :: sha in shas && sha != Sha(d.inodes[fd]) then ReadRefused(ProofHashMismatch)
      else ReadGot(d.inodes[fd])
    case _ => r
  }

  // ---- publish ------------------------------------------------------------------

  // Finishing a publication found complete: unlink its proven staging names.
  datatype Sweep =
    | SweepStat
    | SweepScan(ino: nat, scan: Scan)
    | SweepTemp(links: set<nat>)
    | SweepRecord(u: nat, links: set<nat>)
    | Swept
    | SweepRefused

  predicate SweepChoice(s: Sweep, pick: nat) {
    && (s.SweepScan? ==> ScanChoice(s.scan, pick))
    && (s.SweepTemp? && s.links != {} ==> pick in s.links)
  }

  function SweepStep(d: Disk, path: Path, s: Sweep, pick: nat): (Disk, Sweep)
    requires SweepChoice(s, pick)
  {
    match s
    case SweepStat => (d, if path in d.targets then SweepScan(d.targets[path], ScanList) else SweepRefused)
    case SweepScan(ino, ScanDone(owned, _)) => (d, SweepTemp(owned))
    case SweepScan(ino, ScanBad) => (d, SweepRefused)
    case SweepScan(ino, scan) => (d, SweepScan(ino, ScanStep(d, path, ino, scan, pick)))
    case SweepTemp(links) =>
      if links == {} then (d, Swept) else (UnlinkTemp(d, pick), SweepRecord(pick, links - {pick}))
    case SweepRecord(u, links) => (UnlinkRecord(d, u), SweepTemp(links))
    case _ => (d, s)
  }

  datatype Publishing =
    | Checking(r: Reading)
    | Sweeping(s: Sweep)
    | Creating
    | Filling(u: nat)
    | OpeningRecord(u: nat)
    | SealingRecord(u: nat)
    | Linking(u: nat)
    | DroppingTemp(u: nat, raced: bool)
    | DroppingRecord(u: nat, raced: bool)
    | Verifying(r: Reading)
    | Published
    | PublishRefused(why: Refusal)

  predicate PublishFinished(p: Publishing) {
    p.Published? || p.PublishRefused?
  }

  predicate PublishChoice(d: Disk, p: Publishing, pick: nat, ino: nat) {
    match p
    case Checking(r) => ReadChoice(r, pick)
    case Verifying(r) => ReadChoice(r, pick)
    case Sweeping(s) => SweepChoice(s, pick)
    case Creating => CanCreate(d, pick, ino)
    case Filling(u) => u in d.temps
    case SealingRecord(u) => u in d.temps
    case Linking(u) => u in d.temps
    case _ => true
  }

  function PublishStep(d: Disk, path: Path, bytes: Bytes, p: Publishing, pick: nat, ino: nat): (Disk, Publishing)
    requires PublishChoice(d, p, pick, ino)
  {
    match p
    case Checking(ReadGot(found)) =>
      (d, if found == bytes then Sweeping(SweepStat) else PublishRefused(DifferentBytes))
    case Checking(ReadMissing) => (d, Creating)
    case Checking(ReadRefused(why)) => (d, PublishRefused(why))
    case Checking(r) => (d, Checking(ReadStep(d, path, r, pick)))
    case Sweeping(Swept) => (d, Published)
    case Sweeping(SweepRefused) => (d, PublishRefused(ProofMismatch))
    case Sweeping(s) => var (e, t) := SweepStep(d, path, s, pick); (e, Sweeping(t))
    case Creating => (Create(d, pick, ino), Filling(pick))
    case Filling(u) => (Fill(d, u, bytes), OpeningRecord(u))
    case OpeningRecord(u) => (OpenRecord(d, u), SealingRecord(u))
    case SealingRecord(u) => (SealRecord(d, u, Proof(path, u, d.temps[u], Sha(bytes))), Linking(u))
    case Linking(u) => (LinkTarget(d, u, path), DroppingTemp(u, path in d.targets))
    case DroppingTemp(u, raced) => (UnlinkTemp(d, u), DroppingRecord(u, raced))
    case DroppingRecord(u, raced) => (UnlinkRecord(d, u), if raced then Verifying(ReadStat) else Published)
    case Verifying(ReadGot(found)) => (d, if found == bytes then Published else PublishRefused(DifferentBytes))
    case Verifying(ReadMissing) => (d, Published)
    case Verifying(ReadRefused(why)) => (d, PublishRefused(why))
    case Verifying(r) => (d, Verifying(ReadStep(d, path, r, pick)))
    case _ => (d, p)
  }

  // ---- write: receipt first, then payload -----------------------------------------

  datatype Job = Job(name: string, text: string, provenance: string)

  function PayloadOf(job: Job): Bytes {
    Raw(job.text)
  }

  function ReceiptOf(job: Job): Bytes {
    ReceiptBytes(Sha(PayloadOf(job)), job.provenance)
  }

  datatype Writing =
    | LookPayload(r: Reading)
    | LookReceipt(r: Reading, hasPayload: bool)
    | PutReceipt(p: Publishing)
    | PutPayload(p: Publishing)
    | Written
    | WriteFailed(why: Refusal)

  predicate WriteFinished(w: Writing) {
    w.Written? || w.WriteFailed?
  }

  predicate WriteChoice(d: Disk, w: Writing, pick: nat, ino: nat) {
    match w
    case LookPayload(r) => ReadChoice(r, pick)
    case LookReceipt(r, _) => ReadChoice(r, pick)
    case PutReceipt(p) => PublishChoice(d, p, pick, ino)
    case PutPayload(p) => PublishChoice(d, p, pick, ino)
    case _ => true
  }

  function WriteStep(d: Disk, job: Job, w: Writing, pick: nat, ino: nat): (Disk, Writing)
    requires WriteChoice(d, w, pick, ino)
  {
    match w
    case LookPayload(ReadGot(found)) =>
      (d, if found == PayloadOf(job) then LookReceipt(ReadStat, true) else WriteFailed(DifferentBytes))
    case LookPayload(ReadMissing) => (d, LookReceipt(ReadStat, false))
    case LookPayload(ReadRefused(why)) => (d, WriteFailed(why))
    case LookPayload(r) => (d, LookPayload(ReadStep(d, PayloadPath(job.name), r, pick)))
    case LookReceipt(ReadGot(found), _) =>
      (d, if found == ReceiptOf(job) then PutReceipt(Checking(ReadStat)) else WriteFailed(DifferentBytes))
    case LookReceipt(ReadMissing, hasPayload) =>
      (d, if hasPayload then WriteFailed(ReceiptMissing) else PutReceipt(Checking(ReadStat)))
    case LookReceipt(ReadRefused(why), _) => (d, WriteFailed(why))
    case LookReceipt(r, hasPayload) => (d, LookReceipt(ReadStep(d, ReceiptPath(job.name), r, pick), hasPayload))
    case PutReceipt(Published) => (d, PutPayload(Checking(ReadStat)))
    case PutReceipt(PublishRefused(why)) => (d, WriteFailed(why))
    case PutReceipt(p) =>
      var (e, q) := PublishStep(d, ReceiptPath(job.name), ReceiptOf(job), p, pick, ino); (e, PutReceipt(q))
    case PutPayload(Published) => (d, Written)
    case PutPayload(PublishRefused(why)) => (d, WriteFailed(why))
    case PutPayload(p) =>
      var (e, q) := PublishStep(d, PayloadPath(job.name), PayloadOf(job), p, pick, ino); (e, PutPayload(q))
    case _ => (d, w)
  }

  // ---- The whole system -------------------------------------------------------------

  datatype Process =
    | Writer(job: Job, w: Writing)
    | Reader(path: Path, r: Reading)

  datatype World = World(disk: Disk, procs: map<nat, Process>)

  datatype Step =
    | Spawn(id: nat, process: Process)
    | Die(id: nat)
    | Advance(id: nat, pick: nat, ino: nat)

  predicate Starting(p: Process) {
    (p.Writer? && p.w == LookPayload(ReadStat)) || (p.Reader? && p.r == ReadStat)
  }

  predicate ProcessChoice(d: Disk, p: Process, pick: nat, ino: nat) {
    match p
    case Writer(_, w) => WriteChoice(d, w, pick, ino)
    case Reader(_, r) => ReadChoice(r, pick)
  }

  function ProcessStep(d: Disk, p: Process, pick: nat, ino: nat): (Disk, Process)
    requires ProcessChoice(d, p, pick, ino)
  {
    match p
    case Writer(job, w) => var (e, v) := WriteStep(d, job, w, pick, ino); (e, Writer(job, v))
    case Reader(path, r) => (d, Reader(path, ReadStep(d, path, r, pick)))
  }

  predicate Enabled(w: World, step: Step) {
    match step
    case Spawn(id, p) => id !in w.procs && Starting(p)
    case Die(id) => id in w.procs
    case Advance(id, pick, ino) => id in w.procs && ProcessChoice(w.disk, w.procs[id], pick, ino)
  }

  function Apply(w: World, step: Step): World
    requires Enabled(w, step)
  {
    match step
    case Spawn(id, p) => w.(procs := w.procs[id := p])
    case Die(id) => w.(procs := w.procs - {id})
    case Advance(id, pick, ino) =>
      var (d, p) := ProcessStep(w.disk, w.procs[id], pick, ino);
      World(d, w.procs[id := p])
  }

  predicate Legal(w: World, steps: seq<Step>)
    decreases steps, 0
  {
    |steps| == 0
    || var last := |steps| - 1;
       Legal(w, steps[..last]) && Enabled(After(w, steps[..last]), steps[last])
  }

  function After(w: World, steps: seq<Step>): World
    requires Legal(w, steps)
    decreases steps, 1
  {
    if |steps| == 0 then w
    else var last := |steps| - 1; Apply(After(w, steps[..last]), steps[last])
  }
}
