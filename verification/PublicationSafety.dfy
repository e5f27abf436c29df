// What every interleaving of publishers, readers and crashes keeps: published
// bytes never change, readers never see a foreign hard link, provenance comes
// before content, and a writer fails only against a different artifact.
module PublicationSafety {
  import opened Outcomes
  import opened PublicationDisk
  import opened PublicationProtocol

  // ---- What each program point knows --------------------------------------------

  ghost predicate Here(d: Disk, path: Path, ino: nat) {
    path in d.targets && d.targets[path] == ino
  }

  ghost predicate Proven(d: Disk, path: Path, owned: set<nat>, shas: set<Sha>)
    requires Sound(d) && path in d.targets
  {
    owned <= {d.winner[path]} && shas <= {Sha(Content(d, path))}
  }

  ghost predicate ScanOk(d: Disk, path: Path, s: Scan)
    requires Sound(d) && path in d.targets
  {
    match s
    case ScanList => true
    case ScanNext(todo, owned, shas) =>
      Proven(d, path, owned, shas) && (d.winner[path] in d.temps ==> d.winner[path] in todo + owned)
    case ScanProve(u, todo, owned, shas) => Proven(d, path, owned, shas) && u == d.winner[path]
    case ScanIdentify(u, proof, todo, owned, shas) =>
      Proven(d, path, owned, shas) && u == d.winner[path]
      && proof == Proof(path, u, d.targets[path], Sha(Content(d, path)))
    case ScanDone(owned, shas) =>
      Proven(d, path, owned, shas) && (d.winner[path] in d.temps ==> d.winner[path] in owned)
    case ScanBad => false
  }

  ghost predicate ReadOk(d: Disk, path: Path, r: Reading)
    requires Sound(d)
  {
    match r
    case ReadStat => true
    case ReadCheck(ino, stat, nlink, _, shas, scan) =>
      Here(d, path, ino) && stat == ino && nlink == 2 && shas <= {Sha(Content(d, path))} && ScanOk(d, path, scan)
    case ReadRecheck(ino, stat, _, shas) =>
      Here(d, path, ino) && stat == ino && shas <= {Sha(Content(d, path))} && d.winner[path] !in d.temps
    case ReadOpen(ino, shas) => Here(d, path, ino) && shas <= {Sha(Content(d, path))}
    case ReadFstat(ino, fd, shas) => Here(d, path, ino) && fd == ino && shas <= {Sha(Content(d, path))}
    case ReadContent(fd, shas) => Here(d, path, fd) && shas <= {Sha(Content(d, path))}
    case ReadGot(bytes) => path in d.targets && bytes == Content(d, path)
    case ReadMissing => true
    case ReadRefused(_) => false
  }

  ghost predicate SweepOk(d: Disk, path: Path, s: Sweep)
    requires Sound(d)
  {
    path in d.targets
    && match s
       case SweepStat => true
       case SweepScan(ino, scan) => d.targets[path] == ino && ScanOk(d, path, scan)
       case SweepTemp(links) => links <= {d.winner[path]}
       case SweepRecord(u, links) => u == d.winner[path] && u !in d.temps && links <= {u}
       case Swept => true
       case SweepRefused => false
  }

  // A staging file its publisher has not linked yet.
  ghost predicate Private(d: Disk, u: nat) {
    u in d.minted && !Won(d, u) && u in d.temps && d.temps[u] in d.inodes
  }

  ghost predicate PublishOk(d: Disk, path: Path, bytes: Bytes, p: Publishing)
    requires Sound(d)
  {
    match p
    case Checking(r) => ReadOk(d, path, r)
    case Sweeping(s) => SweepOk(d, path, s) && Content(d, path) == bytes
    case Creating => true
    case Filling(u) => Private(d, u)
    case OpeningRecord(u) => Private(d, u) && d.inodes[d.temps[u]] == bytes
    case SealingRecord(u) => Private(d, u) && d.inodes[d.temps[u]] == bytes
    case Linking(u) =>
      Private(d, u) && d.inodes[d.temps[u]] == bytes
      && u in d.records && d.records[u] == Some(Proof(path, u, d.temps[u], Sha(bytes)))
    case DroppingTemp(u, raced) =>
      u in d.minted && path in d.targets
      && if raced then !Won(d, u) else d.winner[path] == u && Content(d, path) == bytes
    case DroppingRecord(u, raced) =>
      u in d.minted && path in d.targets && u !in d.temps
      && if raced then !Won(d, u) else d.winner[path] == u && Content(d, path) == bytes
    case Verifying(r) => path in d.targets && ReadOk(d, path, r) && !r.ReadMissing?
    case Published => path in d.targets && Content(d, path) == bytes
    case PublishRefused(why) => why == DifferentBytes && path in d.targets && Content(d, path) != bytes
  }

  ghost predicate Shows(d: Disk, path: Path, bytes: Bytes)
    requires Sound(d)
  {
    path in d.targets && Content(d, path) == bytes
  }

  ghost predicate Conflicts(d: Disk, path: Path, bytes: Bytes)
    requires Sound(d)
  {
    path in d.targets && Content(d, path) != bytes
  }

  ghost predicate WriteOk(d: Disk, job: Job, w: Writing)
    requires Sound(d)
  {
    var payload, receipt := PayloadPath(job.name), ReceiptPath(job.name);
    match w
    case LookPayload(r) => ReadOk(d, payload, r)
    case LookReceipt(r, hasPayload) =>
      ReadOk(d, receipt, r)
      && (hasPayload ==> Shows(d, payload, PayloadOf(job)) && receipt in d.targets && !r.ReadMissing?)
    case PutReceipt(p) => PublishOk(d, receipt, ReceiptOf(job), p)
    case PutPayload(p) => Shows(d, receipt, ReceiptOf(job)) && PublishOk(d, payload, PayloadOf(job), p)
    case Written => Shows(d, receipt, ReceiptOf(job)) && Shows(d, payload, PayloadOf(job))
    case WriteFailed(why) =>
      why == DifferentBytes && (Conflicts(d, receipt, ReceiptOf(job)) || Conflicts(d, payload, PayloadOf(job)))
  }

  ghost predicate ProcessOk(d: Disk, p: Process)
    requires Sound(d)
  {
    match p
    case Writer(job, w) => WriteOk(d, job, w)
    case Reader(path, r) => ReadOk(d, path, r)
  }

  // The UUID a process is still responsible for.
  function HeldBy(p: Publishing): set<nat> {
    match p
    case Filling(u) => {u}
    case OpeningRecord(u) => {u}
    case SealingRecord(u) => {u}
    case Linking(u) => {u}
    case DroppingTemp(u, _) => {u}
    case DroppingRecord(u, _) => {u}
    case _ => {}
  }

  function Held(p: Process): set<nat> {
    match p
    case Writer(_, PutReceipt(q)) => HeldBy(q)
    case Writer(_, PutPayload(q)) => HeldBy(q)
    case _ => {}
  }

  // A visible payload has a visible receipt that names its digest.
  ghost predicate Paired(d: Disk)
    requires Sound(d)
  {
    forall name :: PayloadPath(name) in d.targets ==>
      && ReceiptPath(name) in d.targets
      && Content(d, ReceiptPath(name)).ReceiptBytes?
      && Content(d, ReceiptPath(name)).sha == Sha(Content(d, PayloadPath(name)))
  }

  ghost predicate WorldOk(w: World) {
    && Sound(w.disk) && Paired(w.disk)
    && (forall id :: id in w.procs ==> ProcessOk(w.disk, w.procs[id]) && Held(w.procs[id]) <= w.disk.minted)
    && (forall i, j :: i in w.procs && j in w.procs && i != j ==> Held(w.procs[i]) !! Held(w.procs[j]))
  }

  // ---- Program points are stable under everybody else's calls ---------------------

  lemma ScanStable(a: Disk, b: Disk, path: Path, s: Scan)
    requires Guarantees(a, b, {}) || (Sound(a) && Sound(b) && Grows(a, b))
    requires path in a.targets && ScanOk(a, path, s)
    ensures ScanOk(b, path, s)
  {
    assert a.winner[path] in a.winner.Values;
  }

  lemma ReadStable(a: Disk, b: Disk, path: Path, r: Reading)
    requires Sound(a) && Sound(b) && Grows(a, b) && ReadOk(a, path, r)
    ensures ReadOk(b, path, r)
  {
    if r.ReadCheck? { ScanStable(a, b, path, r.scan); }
    if r.ReadRecheck? { assert a.winner[path] in a.winner.Values; }
  }

  lemma SweepStable(a: Disk, b: Disk, path: Path, s: Sweep)
    requires Sound(a) && Sound(b) && Grows(a, b) && SweepOk(a, path, s)
    ensures SweepOk(b, path, s)
  {
    if s.SweepScan? { ScanStable(a, b, path, s.scan); }
    assert a.winner[path] in a.winner.Values;
  }

  // A publisher's own staging file survives everybody else's calls.
  lemma OwnFilesStable(a: Disk, b: Disk, path: Path, bytes: Bytes, p: Publishing, u: nat)
    requires Sound(a) && Sound(b) && Grows(a, b) && PublishOk(a, path, bytes, p)
    requires HeldBy(p) == {u} && u in a.minted && Undisturbed(a, b, u)
    ensures PublishOk(b, path, bytes, p)
  {
  }

  lemma PublishStable(a: Disk, b: Disk, path: Path, bytes: Bytes, p: Publishing)
    requires Sound(a) && Sound(b) && Grows(a, b) && PublishOk(a, path, bytes, p)
    requires HeldBy(p) <= a.minted && forall u :: u in HeldBy(p) ==> Undisturbed(a, b, u)
    ensures PublishOk(b, path, bytes, p)
  {
    if p.Checking? || p.Verifying? {
      ReadStable(a, b, path, p.r);
    } else if p.Sweeping? {
      SweepStable(a, b, path, p.s);
    } else if HeldBy(p) != {} {
      OwnFilesStable(a, b, path, bytes, p, p.u);
    }
  }

  lemma ProcessStable(a: Disk, b: Disk, p: Process)
    requires Sound(a) && Sound(b) && Grows(a, b) && ProcessOk(a, p)
    requires Held(p) <= a.minted && forall u :: u in Held(p) ==> Undisturbed(a, b, u)
    ensures ProcessOk(b, p)
  {
    match p
    case Writer(job, LookPayload(r)) => ReadStable(a, b, PayloadPath(job.name), r);
    case Writer(job, LookReceipt(r, _)) => ReadStable(a, b, ReceiptPath(job.name), r);
    case Writer(job, PutReceipt(q)) => PublishStable(a, b, ReceiptPath(job.name), ReceiptOf(job), q);
    case Writer(job, PutPayload(q)) => PublishStable(a, b, PayloadPath(job.name), PayloadOf(job), q);
    case Writer(_, _) =>
    case Reader(path, r) => ReadStable(a, b, path, r);
  }

  // ---- Each program point leads to the next -----------------------------------------

  lemma ScanAdvances(d: Disk, path: Path, s: Scan, pick: nat)
    requires Sound(d) && path in d.targets && ScanOk(d, path, s) && ScanChoice(s, pick)
    ensures ScanOk(d, path, ScanStep(d, path, d.targets[path], s, pick))
  {
    assert ProofOutlives(d, path);
  }

  lemma ReadAdvances(d: Disk, path: Path, r: Reading, pick: nat)
    requires Sound(d) && ReadOk(d, path, r) && ReadChoice(r, pick)
    ensures ReadOk(d, path, ReadStep(d, path, r, pick))
    ensures path in d.targets && !r.ReadMissing? ==> !ReadStep(d, path, r, pick).ReadMissing?
  {
    if path in d.targets { TargetLinkCount(d, path); }
    if r.ReadCheck? {
      ScanAdvances(d, path, r.scan, pick);
      if r.scan.ScanDone? && r.scan.owned != {} { assert r.scan.owned == {d.winner[path]}; }
    }
  }

  lemma SweepAdvances(d: Disk, path: Path, s: Sweep, pick: nat)
    requires Sound(d) && SweepOk(d, path, s) && SweepChoice(s, pick)
    ensures var (e, t) := SweepStep(d, path, s, pick); Guarantees(d, e, {}) && SweepOk(e, path, t)
  {
    assert Won(d, d.winner[path]);
    match s
    case SweepScan(_, scan) => ScanAdvances(d, path, scan, pick);
    case SweepTemp(links) => if links != {} { UnlinkTempGuarantees(d, pick); }
    case SweepRecord(u, _) => UnlinkRecordGuarantees(d, u);
    case _ =>
  }

  // One step of a publisher: what it guarantees to the others, and where it is next.
  ghost predicate PublishLeads(d: Disk, path: Path, bytes: Bytes, p: Publishing, e: Disk, q: Publishing)
    requires Sound(d)
  {
    && Guarantees(d, e, HeldBy(p)) && PublishOk(e, path, bytes, q)
    && HeldBy(q) <= e.minted && HeldBy(q) <= HeldBy(p) + (e.minted - d.minted)
  }

  lemma ReadingLeads(d: Disk, path: Path, bytes: Bytes, p: Publishing, pick: nat, ino: nat)
    requires Sound(d) && PublishOk(d, path, bytes, p) && PublishChoice(d, p, pick, ino)
    requires p.Checking? || p.Verifying?
    ensures var (e, q) := PublishStep(d, path, bytes, p, pick, ino); PublishLeads(d, path, bytes, p, e, q)
  {
    hide Sound;
    if !ReadFinished(p.r) { ReadAdvances(d, path, p.r, pick); }
  }

  lemma SweepingLeads(d: Disk, path: Path, bytes: Bytes, s: Sweep, pick: nat, ino: nat)
    requires Sound(d) && PublishOk(d, path, bytes, Sweeping(s)) && PublishChoice(d, Sweeping(s), pick, ino)
    ensures var (e, q) := PublishStep(d, path, bytes, Sweeping(s), pick, ino);
            PublishLeads(d, path, bytes, Sweeping(s), e, q)
  {
    hide Sound;
    if !s.Swept? { SweepAdvances(d, path, s, pick); }
  }

  lemma StagingLeads(d: Disk, path: Path, bytes: Bytes, p: Publishing, pick: nat, ino: nat)
    requires Sound(d) && PublishOk(d, path, bytes, p) && PublishChoice(d, p, pick, ino)
    requires p.Creating? || p.Filling?
    ensures var (e, q) := PublishStep(d, path, bytes, p, pick, ino); PublishLeads(d, path, bytes, p, e, q)
  {
    if p.Creating? { CreateGuarantees(d, pick, ino); } else { FillGuarantees(d, p.u, bytes); }
  }

  lemma RecordingLeads(d: Disk, path: Path, bytes: Bytes, p: Publishing, pick: nat, ino: nat)
    requires Sound(d) && PublishOk(d, path, bytes, p) && PublishChoice(d, p, pick, ino)
    requires p.OpeningRecord? || p.SealingRecord?
    ensures var (e, q) := PublishStep(d, path, bytes, p, pick, ino); PublishLeads(d, path, bytes, p, e, q)
  {
    if p.OpeningRecord? { RecordGuarantees(d, p.u, None); }
    else { RecordGuarantees(d, p.u, Some(Proof(path, p.u, d.temps[p.u], Sha(bytes)))); }
  }

  lemma LinkingLeads(d: Disk, path: Path, bytes: Bytes, u: nat, pick: nat, ino: nat)
    requires Sound(d) && PublishOk(d, path, bytes, Linking(u)) && PublishChoice(d, Linking(u), pick, ino)
    ensures var (e, q) := PublishStep(d, path, bytes, Linking(u), pick, ino);
            PublishLeads(d, path, bytes, Linking(u), e, q)
  {
    LinkGuarantees(d, u, path);
  }

  lemma DroppingTempLeads(d: Disk, path: Path, bytes: Bytes, p: Publishing, pick: nat, ino: nat)
    requires Sound(d) && PublishOk(d, path, bytes, p) && p.DroppingTemp? && PublishChoice(d, p, pick, ino)
    ensures var (e, q) := PublishStep(d, path, bytes, p, pick, ino); PublishLeads(d, path, bytes, p, e, q)
  {
    hide Sound;
    UnlinkTempEffect(d, p.u);
    UnlinkTempGuarantees(d, p.u);
  }

  lemma DroppingRecordLeads(d: Disk, path: Path, bytes: Bytes, p: Publishing, pick: nat, ino: nat)
    requires Sound(d) && PublishOk(d, path, bytes, p) && p.DroppingRecord? && PublishChoice(d, p, pick, ino)
    ensures var (e, q) := PublishStep(d, path, bytes, p, pick, ino); PublishLeads(d, path, bytes, p, e, q)
  {
    hide Sound;
    UnlinkRecordGuarantees(d, p.u);
  }

  lemma PublishAdvances(d: Disk, path: Path, bytes: Bytes, p: Publishing, pick: nat, ino: nat)
    requires Sound(d) && PublishOk(d, path, bytes, p) && HeldBy(p) <= d.minted && PublishChoice(d, p, pick, ino)
    ensures var (e, q) := PublishStep(d, path, bytes, p, pick, ino); PublishLeads(d, path, bytes, p, e, q)
  {
    hide Sound;
    match p
    case Checking(_) => ReadingLeads(d, path, bytes, p, pick, ino);
    case Verifying(_) => ReadingLeads(d, path, bytes, p, pick, ino);
    case Sweeping(s) => SweepingLeads(d, path, bytes, s, pick, ino);
    case Creating => StagingLeads(d, path, bytes, p, pick, ino);
    case Filling(_) => StagingLeads(d, path, bytes, p, pick, ino);
    case OpeningRecord(_) => RecordingLeads(d, path, bytes, p, pick, ino);
    case SealingRecord(_) => RecordingLeads(d, path, bytes, p, pick, ino);
    case Linking(u) => LinkingLeads(d, path, bytes, u, pick, ino);
    case DroppingTemp(_, _) => DroppingTempLeads(d, path, bytes, p, pick, ino);
    case DroppingRecord(_, _) => DroppingRecordLeads(d, path, bytes, p, pick, ino);
    case _ =>
  }

  // The only target name a publisher can create is its own, with its own bytes.
  lemma PublishNamesOnlyItsPath(d: Disk, path: Path, bytes: Bytes, p: Publishing, pick: nat, ino: nat)
    requires Sound(d) && PublishOk(d, path, bytes, p) && HeldBy(p) <= d.minted && PublishChoice(d, p, pick, ino)
    ensures var (e, _) := PublishStep(d, path, bytes, p, pick, ino);
            Sound(e) && e.targets.Keys <= d.targets.Keys + {path}
            && (path in e.targets && path !in d.targets ==> Content(e, path) == bytes)
  {
    hide Sound;
    PublishAdvances(d, path, bytes, p, pick, ino);
    match p
    case Sweeping(SweepTemp(links)) => if links != {} { UnlinkTempEffect(d, pick); }
    case DroppingTemp(u, _) => UnlinkTempEffect(d, u);
    case _ =>
  }

  ghost predicate WriteLeads(d: Disk, job: Job, w: Writing, e: Disk, v: Writing)
    requires Sound(d)
  {
    var p, q := Writer(job, w), Writer(job, v);
    && Guarantees(d, e, Held(p)) && Paired(e) && WriteOk(e, job, v)
    && Held(q) <= e.minted && Held(q) <= Held(p) + (e.minted - d.minted)
  }

  lemma LookingAtPayloadLeads(d: Disk, job: Job, r: Reading, pick: nat, ino: nat)
    requires Sound(d) && Paired(d) && WriteOk(d, job, LookPayload(r)) && ReadChoice(r, pick)
    ensures var (e, v) := WriteStep(d, job, LookPayload(r), pick, ino); WriteLeads(d, job, LookPayload(r), e, v)
  {
    hide Sound;
    if !ReadFinished(r) { ReadAdvances(d, PayloadPath(job.name), r, pick); }
  }

  lemma LookingAtReceiptLeads(d: Disk, job: Job, w: Writing, pick: nat, ino: nat)
    requires Sound(d) && Paired(d) && WriteOk(d, job, w) && w.LookReceipt? && ReadChoice(w.r, pick)
    ensures var (e, v) := WriteStep(d, job, w, pick, ino); WriteLeads(d, job, w, e, v)
  {
    hide Sound;
    if !ReadFinished(w.r) { ReadAdvances(d, ReceiptPath(job.name), w.r, pick); }
  }

  // A new receipt changes no pair: were its payload visible, a receipt would be.
  lemma NewReceiptKeepsPairs(d: Disk, e: Disk, name: string)
    requires Sound(d) && Sound(e) && Grows(d, e) && Paired(d)
    requires e.targets.Keys <= d.targets.Keys + {ReceiptPath(name)}
    ensures Paired(e)
  {
  }

  // A new payload completes its pair under the receipt that names its digest.
  lemma NewPayloadKeepsPairs(d: Disk, e: Disk, job: Job)
    requires Sound(d) && Sound(e) && Grows(d, e) && Paired(d)
    requires e.targets.Keys <= d.targets.Keys + {PayloadPath(job.name)}
    requires Shows(d, ReceiptPath(job.name), ReceiptOf(job))
    requires PayloadPath(job.name) in e.targets && PayloadPath(job.name) !in d.targets ==>
               Content(e, PayloadPath(job.name)) == PayloadOf(job)
    ensures Paired(e) && Shows(e, ReceiptPath(job.name), ReceiptOf(job))
  {
    forall name | PayloadPath(name) in e.targets
      ensures ReceiptPath(name) in e.targets && Content(e, ReceiptPath(name)).ReceiptBytes?
              && Content(e, ReceiptPath(name)).sha == Sha(Content(e, PayloadPath(name)))
    {
      if PayloadPath(name) in d.targets {
        assert ReceiptPath(name) in d.targets && Content(d, ReceiptPath(name)).ReceiptBytes?;
      }
    }
  }

  lemma PuttingReceiptLeads(d: Disk, job: Job, p: Publishing, pick: nat, ino: nat)
    requires Sound(d) && Paired(d) && WriteOk(d, job, PutReceipt(p)) && HeldBy(p) <= d.minted
    requires WriteChoice(d, PutReceipt(p), pick, ino) && !PublishFinished(p)
    ensures var (e, q) := PublishStep(d, ReceiptPath(job.name), ReceiptOf(job), p, pick, ino);
            WriteLeads(d, job, PutReceipt(p), e, PutReceipt(q))
  {
    hide Sound;
    var (e, q) := PublishStep(d, ReceiptPath(job.name), ReceiptOf(job), p, pick, ino);
    PublishAdvances(d, ReceiptPath(job.name), ReceiptOf(job), p, pick, ino);
    PublishNamesOnlyItsPath(d, ReceiptPath(job.name), ReceiptOf(job), p, pick, ino);
    NewReceiptKeepsPairs(d, e, job.name);
  }

  lemma PuttingPayloadLeads(d: Disk, job: Job, p: Publishing, pick: nat, ino: nat)
    requires Sound(d) && Paired(d) && WriteOk(d, job, PutPayload(p)) && HeldBy(p) <= d.minted
    requires WriteChoice(d, PutPayload(p), pick, ino) && !PublishFinished(p)
    ensures var (e, q) := PublishStep(d, PayloadPath(job.name), PayloadOf(job), p, pick, ino);
            WriteLeads(d, job, PutPayload(p), e, PutPayload(q))
  {
    hide Sound;
    var (e, q) := PublishStep(d, PayloadPath(job.name), PayloadOf(job), p, pick, ino);
    PublishAdvances(d, PayloadPath(job.name), PayloadOf(job), p, pick, ino);
    PublishNamesOnlyItsPath(d, PayloadPath(job.name), PayloadOf(job), p, pick, ino);
    NewPayloadKeepsPairs(d, e, job);
  }

  lemma PublishEndsLead(d: Disk, job: Job, w: Writing, pick: nat, ino: nat)
    requires Sound(d) && Paired(d) && WriteOk(d, job, w) && WriteChoice(d, w, pick, ino)
    requires (w.PutReceipt? || w.PutPayload?) && PublishFinished(w.p)
    ensures var (e, v) := WriteStep(d, job, w, pick, ino); WriteLeads(d, job, w, e, v)
  {
    hide Sound;
  }

  lemma WriteAdvances(d: Disk, job: Job, w: Writing, pick: nat, ino: nat)
    requires Sound(d) && Paired(d) && WriteOk(d, job, w) && WriteChoice(d, w, pick, ino)
    requires Held(Writer(job, w)) <= d.minted
    ensures var (e, v) := WriteStep(d, job, w, pick, ino); WriteLeads(d, job, w, e, v)
  {
    hide Sound;
    if w.LookPayload? {
      LookingAtPayloadLeads(d, job, w.r, pick, ino);
    } else if w.LookReceipt? {
      LookingAtReceiptLeads(d, job, w, pick, ino);
    } else if !WriteFinished(w) {
      if PublishFinished(w.p) {
        PublishEndsLead(d, job, w, pick, ino);
      } else if w.PutReceipt? {
        PuttingReceiptLeads(d, job, w.p, pick, ino);
      } else {
        PuttingPayloadLeads(d, job, w.p, pick, ino);
      }
    }
  }

  ghost predicate ProcessLeads(d: Disk, p: Process, e: Disk, q: Process)
    requires Sound(d)
  {
    && Guarantees(d, e, Held(p)) && Paired(e) && ProcessOk(e, q)
    && Held(q) <= e.minted && Held(q) <= Held(p) + (e.minted - d.minted)
  }

  lemma ProcessAdvances(d: Disk, p: Process, pick: nat, ino: nat)
    requires Sound(d) && Paired(d) && ProcessOk(d, p) && Held(p) <= d.minted && ProcessChoice(d, p, pick, ino)
    ensures var (e, q) := ProcessStep(d, p, pick, ino); ProcessLeads(d, p, e, q)
  {
    hide Sound;
    match p
    case Writer(job, w) => WriteAdvances(d, job, w, pick, ino);
    case Reader(path, r) => ReadAdvances(d, path, r, pick);
  }

  // ---- The invariant of the whole system ------------------------------------------

  lemma AdvanceKeepsWorld(w: World, step: Step)
    requires WorldOk(w) && Enabled(w, step) && step.Advance?
    ensures WorldOk(Apply(w, step)) && Grows(w.disk, Apply(w, step).disk)
  {
    hide Sound, Paired, ProcessOk, Grows, Undisturbed, Held;
    var p := w.procs[step.id];
    var (e, q) := ProcessStep(w.disk, p, step.pick, step.ino);
    ProcessAdvances(w.disk, p, step.pick, step.ino);
    assert ProcessLeads(w.disk, p, e, q);
    forall id | id in w.procs && id != step.id
      ensures ProcessOk(e, w.procs[id]) && Held(w.procs[id]) <= e.minted && Held(w.procs[id]) !! Held(q)
    {
      ProcessStable(w.disk, e, w.procs[id]);
      MintedGrows(w.disk, e);
    }
  }

  lemma MintedGrows(a: Disk, b: Disk)
    requires Sound(a) && Sound(b) && Grows(a, b)
    ensures a.minted <= b.minted
  {
  }

  lemma StepKeepsWorld(w: World, step: Step)
    requires WorldOk(w) && Enabled(w, step)
    ensures WorldOk(Apply(w, step)) && Grows(w.disk, Apply(w, step).disk)
  {
    hide Sound;
    if step.Advance? {
      hide ProcessStep, ProcessOk;
      AdvanceKeepsWorld(w, step);
    }
  }

  // Nothing is running, and whatever the directories hold is consistent.
  ghost predicate Initial(w: World) {
    w.procs == map[] && Sound(w.disk) && Paired(w.disk)
  }

  lemma {:induction false} EveryRunIsSafe(w: World, steps: seq<Step>)
    requires Initial(w) && Legal(w, steps)
    ensures WorldOk(After(w, steps))
  {
    if |steps| > 0 {
      var last := |steps| - 1;
      EveryRunIsSafe(w, steps[..last]);
      StepKeepsWorld(After(w, steps[..last]), steps[last]);
    }
  }

  // Once published, a path shows the same bytes for the rest of the run.
  lemma {:induction false} PublishedBytesNeverChange(w: World, steps: seq<Step>, k: nat, path: Path)
    requires Initial(w) && Legal(w, steps) && k <= |steps| && Legal(w, steps[..k])
    requires path in After(w, steps[..k]).disk.targets
    ensures Sound(After(w, steps[..k]).disk) && Sound(After(w, steps).disk)
    ensures Shows(After(w, steps).disk, path, Content(After(w, steps[..k]).disk, path))
    decreases steps
  {
    hide Sound;
    EveryRunIsSafe(w, steps);
    EveryRunIsSafe(w, steps[..k]);
    if k == |steps| {
      assert steps[..k] == steps;
    } else {
      var last := |steps| - 1;
      assert steps[..last][..k] == steps[..k];
      PublishedBytesNeverChange(w, steps[..last], k, path);
      EveryRunIsSafe(w, steps[..last]);
      StepKeepsWorld(After(w, steps[..last]), steps[last]);
    }
  }

  // A published target has one name, or two and then the other is its winner's
  // staging file, whose complete record is still there.
  lemma HardLinksAreAccountedFor(w: World, steps: seq<Step>, path: Path)
    requires Initial(w) && Legal(w, steps) && path in After(w, steps).disk.targets
    ensures var d := After(w, steps).disk;
            && Sound(d)
            && (LinkCount(d, d.targets[path]) == 1
                || exists u :: && u in d.temps && d.temps[u] == d.targets[path]
                               && u in d.records
                               && d.records[u] == Some(Proof(path, u, d.targets[path], Sha(Content(d, path))))
                               && LinkCount(d, d.targets[path]) == 2
                               && forall v :: v in d.temps && d.temps[v] == d.targets[path] ==> v == u)
  {
    EveryRunIsSafe(w, steps);
    var d := After(w, steps).disk;
    TargetLinkCount(d, path);
    assert ProofOutlives(d, path);
    if d.winner[path] in d.temps {
      var u := d.winner[path];
      assert u in d.temps && u in d.records;
    }
  }

  // No read of a published path is ever refused, whatever crashed or raced: it
  // returns the published bytes, or found nothing there.
  lemma ReadersAreNeverRefused(w: World, steps: seq<Step>, id: nat, path: Path, r: Reading)
    requires Initial(w) && Legal(w, steps)
    requires id in After(w, steps).procs && After(w, steps).procs[id] == Reader(path, r)
    ensures !r.ReadRefused?
    ensures r.ReadGot? ==> Sound(After(w, steps).disk) && Shows(After(w, steps).disk, path, r.bytes)
  {
    EveryRunIsSafe(w, steps);
  }

  // In every state a visible payload has a visible receipt that names its digest.
  lemma ProvenanceBeforeContent(w: World, steps: seq<Step>, name: string)
    requires Initial(w) && Legal(w, steps) && PayloadPath(name) in After(w, steps).disk.targets
    ensures var d := After(w, steps).disk;
            && Sound(d) && ReceiptPath(name) in d.targets
            && Content(d, ReceiptPath(name)).ReceiptBytes?
            && Content(d, ReceiptPath(name)).sha == Sha(Content(d, PayloadPath(name)))
  {
    EveryRunIsSafe(w, steps);
  }

  // How a writer can end: it published its exact pair, or somebody published a
  // different artifact under that name. It never meets a missing receipt.
  lemma WritersEndOnlyTwoWays(w: World, steps: seq<Step>, id: nat, job: Job, end: Writing)
    requires Initial(w) && Legal(w, steps)
    requires id in After(w, steps).procs && After(w, steps).procs[id] == Writer(job, end) && WriteFinished(end)
    ensures var d := After(w, steps).disk;
            && Sound(d)
            && (end.Written? ==>
                  Shows(d, ReceiptPath(job.name), ReceiptOf(job)) && Shows(d, PayloadPath(job.name), PayloadOf(job)))
            && (end.WriteFailed? ==>
                  && end.why == DifferentBytes
                  && (Conflicts(d, ReceiptPath(job.name), ReceiptOf(job))
                      || Conflicts(d, PayloadPath(job.name), PayloadOf(job))))
  {
    EveryRunIsSafe(w, steps);
  }

  // A writer publishes payload bytes only under its own receipt: with another
  // receipt in place it never reaches, and never makes, the payload's link.
  lemma ForeignReceiptStopsWriter(w: World, steps: seq<Step>, id: nat, job: Job, now: Writing)
    requires Initial(w) && Legal(w, steps)
    requires id in After(w, steps).procs && After(w, steps).procs[id] == Writer(job, now)
    requires Sound(After(w, steps).disk) && Conflicts(After(w, steps).disk, ReceiptPath(job.name), ReceiptOf(job))
    ensures !now.PutPayload? && !now.Written?
  {
    EveryRunIsSafe(w, steps);
  }

  // ---- Nobody is ever stuck -----------------------------------------------------------

  lemma SomeUnused(used: set<nat>) returns (unused: nat)
    ensures unused !in used
  {
    unused := 0;
    var below: set<nat> := {};
    while unused in used
      invariant below <= used
      invariant forall n :: n in below <==> 0 <= n < unused
      decreases used - below
    {
      below := below + {unused};
      unused := unused + 1;
    }
  }

  lemma SomeChoice(links: set<nat>) returns (pick: nat)
    ensures links != {} ==> pick in links
  {
    pick := 0;
    if links != {} { pick :| pick in links; }
  }

  lemma ReadCanAdvance(r: Reading) returns (pick: nat)
    ensures ReadChoice(r, pick)
  {
    pick := SomeChoice(if r.ReadCheck? && r.scan.ScanNext? then r.scan.todo else {});
  }

  lemma PublishCanAdvance(d: Disk, path: Path, bytes: Bytes, p: Publishing) returns (pick: nat, ino: nat)
    requires Sound(d) && PublishOk(d, path, bytes, p)
    ensures PublishChoice(d, p, pick, ino)
  {
    pick := SomeUnused(d.minted);
    ino := SomeUnused(d.inodes.Keys);
    if p.Checking? || p.Verifying? {
      pick := ReadCanAdvance(p.r);
    } else if p.Sweeping? {
      pick := SomeChoice(if p.s.SweepTemp? then p.s.links
                         else if p.s.SweepScan? && p.s.scan.ScanNext? then p.s.scan.todo else {});
    }
  }

  // In every reachable state every process has a next call it can make: no call
  // of the model waits for another process.
  lemma ProcessesCanAlwaysAdvance(w: World, steps: seq<Step>, id: nat) returns (pick: nat, ino: nat)
    requires Initial(w) && Legal(w, steps) && id in After(w, steps).procs
    ensures Enabled(After(w, steps), Advance(id, pick, ino))
  {
    EveryRunIsSafe(w, steps);
    var d := After(w, steps).disk;
    pick, ino := 0, 0;
    match After(w, steps).procs[id]
    case Writer(job, LookPayload(r)) => pick := ReadCanAdvance(r);
    case Writer(job, LookReceipt(r, _)) => pick := ReadCanAdvance(r);
    case Writer(job, PutReceipt(p)) => pick, ino := PublishCanAdvance(d, ReceiptPath(job.name), ReceiptOf(job), p);
    case Writer(job, PutPayload(p)) => pick, ino := PublishCanAdvance(d, PayloadPath(job.name), PayloadOf(job), p);
    case Writer(_, _) =>
    case Reader(_, r) => pick := ReadCanAdvance(r);
  }
}
