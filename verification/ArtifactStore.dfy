// One uninterrupted publication, in the source's order of file-system calls
// (src/artifacts/context.ts): what a read accepts on any disk, and how a write
// completes whatever an earlier crashed writer left behind.
module ArtifactStore {
  import opened Outcomes
  import opened PublicationDisk
  import opened PublicationProtocol
  import S = PublicationSafety

  // ---- What a read accepts ---------------------------------------------------

  // The staging files that share the path's inode and have a record.
  function Recorded(d: Disk, path: Path): set<nat>
    requires path in d.targets
  {
    set u | u in d.temps && d.temps[u] == d.targets[path] && u in d.records
  }

  predicate Matches(d: Disk, path: Path, u: nat)
    requires path in d.targets && u in d.records
  {
    d.records[u].Some? && d.records[u].value == Proof(path, u, d.targets[path], d.records[u].value.sha)
  }

  function Digests(d: Disk, path: Path): set<Sha>
    requires path in d.targets
  {
    set u | u in Recorded(d, path) && d.records[u].Some? :: d.records[u].value.sha
  }

  // Every name of the inode is accounted for: the path alone, or the path and
  // staging files whose complete records bind them to this path, this inode
  // and these bytes.
  predicate Authentic(d: Disk, path: Path)
    requires path in d.targets && d.targets[path] in d.inodes
  {
    LinkCount(d, d.targets[path]) == 1
    || (&& (forall u :: u in Recorded(d, path) ==> Matches(d, path, u))
        && LinkCount(d, d.targets[path]) == |Recorded(d, path)| + 1
        && Digests(d, path) <= {Sha(d.inodes[d.targets[path]])})
  }

  // Another name of the path's inode that no record accounts for: a second
  // published path, or a staging file without a record.
  ghost predicate ForeignName(d: Disk, path: Path)
    requires path in d.targets
  {
    || (exists q :: q in d.targets && q != path && d.targets[q] == d.targets[path])
    || (exists u :: u in d.temps && d.temps[u] == d.targets[path] && u !in d.records)
  }

  lemma SubsetCard<T>(some: set<T>, all: set<T>)
    requires some <= all
    ensures |some| <= |all| && (|some| == |all| <==> some == all)
  {
    assert all == some + (all - some);
  }

  lemma ForeignIsLeftOver(d: Disk, path: Path, paths: set<Path>, files: set<nat>)
    requires path in d.targets
    requires paths == set p | p in d.targets && d.targets[p] == d.targets[path]
    requires files == set u | u in d.temps && d.temps[u] == d.targets[path]
    ensures {path} <= paths && Recorded(d, path) <= files
    ensures ForeignName(d, path) <==> paths != {path} || files != Recorded(d, path)
  {
    assert paths == {path} <==> forall q :: q in paths ==> q == path by {
      if forall q :: q in paths ==> q == path { assert paths == {path}; }
    }
    assert files == Recorded(d, path) <==> forall u :: u in files ==> u in d.records by {
      if forall u :: u in files ==> u in d.records { assert forall u :: u in files <==> u in Recorded(d, path); }
    }
    if exists q :: q in paths && q != path {
      var q :| q in paths && q != path;
      assert q in d.targets && d.targets[q] == d.targets[path];
    }
    if exists u :: u in files && u !in d.records {
      var u :| u in files && u !in d.records;
      assert u in d.temps && d.temps[u] == d.targets[path];
    }
    if q :| q in d.targets && q != path && d.targets[q] == d.targets[path] {
      assert q in paths;
    }
    if u :| u in d.temps && d.temps[u] == d.targets[path] && u !in d.records {
      assert u in files;
    }
  }

  // Counting the names finds a foreign one exactly when there is one.
  lemma CountingNames(d: Disk, path: Path)
    requires path in d.targets
    ensures LinkCount(d, d.targets[path]) >= |Recorded(d, path)| + 1
    ensures LinkCount(d, d.targets[path]) == |Recorded(d, path)| + 1 <==> !ForeignName(d, path)
  {
    var paths := set p | p in d.targets && d.targets[p] == d.targets[path];
    var files := set u | u in d.temps && d.temps[u] == d.targets[path];
    ForeignIsLeftOver(d, path, paths, files);
    hide ForeignName, Recorded;
    SubsetCard({path}, paths);
    SubsetCard(Recorded(d, path), files);
  }

  lemma AuthenticMeans(d: Disk, path: Path)
    requires path in d.targets && d.targets[path] in d.inodes
    ensures Authentic(d, path) <==>
            && !ForeignName(d, path)
            && forall u :: u in d.temps && d.temps[u] == d.targets[path] ==>
                 u in d.records && d.records[u] == Some(Proof(path, u, d.targets[path], Sha(d.inodes[d.targets[path]])))
  {
    CountingNames(d, path);
    hide LinkCount;
    if LinkCount(d, d.targets[path]) == 1 {
      assert Recorded(d, path) == {};
    }
    if Authentic(d, path) {
      forall u | u in d.temps && d.temps[u] == d.targets[path]
        ensures u in d.records && d.records[u] == Some(Proof(path, u, d.targets[path], Sha(d.inodes[d.targets[path]])))
      {
        assert u in Recorded(d, path) && Matches(d, path, u);
        assert d.records[u].value.sha in Digests(d, path);
      }
    }
  }

  lemma SoundIsAuthentic(d: Disk, path: Path)
    requires Sound(d) && path in d.targets
    ensures Authentic(d, path)
    ensures Recorded(d, path) == if d.winner[path] in d.temps then {d.winner[path]} else {}
  {
    TargetLinkCount(d, path);
    assert ProofOutlives(d, path);
    var w := d.winner[path];
    assert Recorded(d, path) == if w in d.temps then {w} else {};
    if w in d.temps {
      assert Matches(d, path, w);
      assert Digests(d, path) <= {Sha(d.inodes[d.targets[path]])};
    }
  }

  // ---- What a publication leaves ------------------------------------------------

  // The disk once the proven staging names of a published path are unlinked.
  function SweptDisk(d: Disk, path: Path): Disk
    requires path in d.targets
  {
    d.(temps := d.temps - Recorded(d, path), records := d.records - Recorded(d, path))
  }

  function PublishedDisk(d: Disk, path: Path, bytes: Bytes, u: nat, ino: nat): Disk {
    d.(inodes := d.inodes[ino := bytes], targets := d.targets[path := ino],
       winner := d.winner[path := u], minted := d.minted + {u})
  }

  class Store {
    var disk: Disk

    constructor (existing: Disk)
      ensures disk == existing
    {
      disk := existing;
    }

    // The proven staging links of a path, or None when a record does not match.
    method StagingLinks(path: Path) returns (links: Option<set<nat>>, shas: set<Sha>)
      requires path in disk.targets
      ensures links.Some? <==> forall u :: u in Recorded(disk, path) ==> Matches(disk, path, u)
      ensures links.Some? ==> links.value == Recorded(disk, path) && shas == Digests(disk, path)
    {
      shas := {};
      var todo := disk.temps.Keys;
      var found: set<nat> := {};
      while todo != {}
        invariant todo <= disk.temps.Keys
        invariant found == Recorded(disk, path) - todo
        invariant forall u :: u in found ==> Matches(disk, path, u)
        invariant shas == set u | u in found && u in disk.records && disk.records[u].Some? :: disk.records[u].value.sha
        decreases todo
      {
        var u :| u in todo;
        todo := todo - {u};
        if disk.temps[u] == disk.targets[path] && u in disk.records {
          assert u in Recorded(disk, path);
          var record := disk.records[u];
          if record.None? {
            return None, {};
          }
          if record.value != Proof(path, u, disk.temps[u], record.value.sha) {
            return None, {};
          }
          assert Matches(disk, path, u);
          found := found + {u};
          shas := shas + {record.value.sha};
        }
      }
      links := Some(found);
    }

    // Accepts the path's bytes exactly when every other name of its inode is a
    // staging file whose complete record binds it to this path, this inode and
    // these bytes.
    method ReadRegular(path: Path) returns (r: Result<Option<Bytes>, Refusal>)
      ensures path !in disk.targets ==> r == Ok(None)
      ensures path in disk.targets && disk.targets[path] in disk.inodes ==>
                var ino, bytes := disk.targets[path], disk.inodes[disk.targets[path]];
                && (r.Ok? ==> r == Ok(Some(bytes)))
                && (r.Ok? <==>
                      && (forall q :: q in disk.targets && disk.targets[q] == ino ==> q == path)
                      && (forall u :: u in disk.temps && disk.temps[u] == ino ==>
                            u in disk.records && disk.records[u] == Some(Proof(path, u, ino, Sha(bytes)))))
      ensures path in disk.targets && disk.targets[path] !in disk.inodes ==> r.Err?
      ensures r == Err(ProofMismatch) <==>
              path in disk.targets && exists u :: u in Recorded(disk, path) && !Matches(disk, path, u)
      ensures r == Err(ForeignHardlinks) <==>
              path in disk.targets && ForeignName(disk, path) && forall u :: u in Recorded(disk, path) ==> Matches(disk, path, u)
    {
      if path !in disk.targets {
        return Ok(None);
      }
      CountingNames(disk, path);
      if disk.targets[path] in disk.inodes {
        AuthenticMeans(disk, path);
      }
      r := CheckNames(path);
    }

    // The reading of a path that is there.
    method CheckNames(path: Path) returns (r: Result<Option<Bytes>, Refusal>)
      requires path in disk.targets
      requires LinkCount(disk, disk.targets[path]) >= |Recorded(disk, path)| + 1
      requires LinkCount(disk, disk.targets[path]) == |Recorded(disk, path)| + 1 <==> !ForeignName(disk, path)
      ensures disk.targets[path] in disk.inodes ==>
                (if Authentic(disk, path) then r == Ok(Some(disk.inodes[disk.targets[path]])) else r.Err?)
      ensures disk.targets[path] !in disk.inodes ==> r.Err?
      ensures r == Err(ProofMismatch) <==> exists u :: u in Recorded(disk, path) && !Matches(disk, path, u)
      ensures r == Err(ForeignHardlinks) <==>
              ForeignName(disk, path) && forall u :: u in Recorded(disk, path) ==> Matches(disk, path, u)
    {
      hide ForeignName;
      var ino := disk.targets[path];
      var nlink := LinkCount(disk, ino);
      var shas: set<Sha> := {};
      if nlink != 1 {
        var links, found := StagingLinks(path);
        if links.None? {
          return Err(ProofMismatch);
        }
        if nlink != |links.value| + 1 {
          return Err(ForeignHardlinks);
        }
        shas := found;
      } else {
        assert Recorded(disk, path) == {};
      }
      if ino !in disk.inodes {
        return Err(ChangedWhileOpening);
      }
      var bytes := disk.inodes[ino];
      if exists sha :: sha in shas && sha != Sha(bytes) {
        return Err(ProofHashMismatch);
      }
      r := Ok(Some(bytes));
    }

    method SameBytes(path: Path, bytes: Bytes) returns (r: Result<bool, Refusal>)
      requires Sound(disk)
      ensures r == if path !in disk.targets then Ok(false)
                   else if Content(disk, path) == bytes then Ok(true)
                   else Err(DifferentBytes)
    {
      var existing := ReadRegular(path);
      if path in disk.targets {
        SoundIsAuthentic(disk, path);
        AuthenticMeans(disk, path);
      }
      match existing
      case Err(why) => r := Err(why);
      case Ok(None) => r := Ok(false);
      case Ok(Some(found)) => r := if found == bytes then Ok(true) else Err(DifferentBytes);
    }

    // Unlinks the staging names a crashed or slower winner left on the path.
    method SweepStaging(path: Path)
      requires Sound(disk) && path in disk.targets
      modifies this
      ensures Sound(disk) && Grows(old(disk), disk) && disk == SweptDisk(old(disk), path)
    {
      hide Sound;
      ghost var before := disk;
      SoundIsAuthentic(disk, path);
      var links, _ := StagingLinks(path);
      var todo := if links.Some? then links.value else {};
      while todo != {}
        invariant todo <= Recorded(before, path)
        invariant disk == if todo == Recorded(before, path) then before else SweptDisk(before, path)
        invariant Sound(disk) && Grows(before, disk)
        decreases todo
      {
        var u :| u in todo;
        todo := todo - {u};
        SweepOne(before, path, u);
        disk := UnlinkTemp(disk, u);
        disk := UnlinkRecord(disk, u);
      }
    }

    // Exclusive publication of one path.
    method Publish(path: Path, bytes: Bytes, u: nat, ino: nat) returns (r: Result<(), Refusal>)
      requires Sound(disk) && CanCreate(disk, u, ino)
      modifies this
      ensures Sound(disk) && Grows(old(disk), disk)
      ensures path !in old(disk).targets ==> r == Ok(()) && disk == PublishedDisk(old(disk), path, bytes, u, ino)
      ensures path in old(disk).targets && Content(old(disk), path) == bytes ==>
                r == Ok(()) && disk == SweptDisk(old(disk), path)
      ensures path in old(disk).targets && Content(old(disk), path) != bytes ==>
                r == Err(DifferentBytes) && disk == old(disk)
      ensures r.Ok? ==> path in disk.targets && Content(disk, path) == bytes && Single(disk, path)
      ensures disk.targets.Keys <= old(disk).targets.Keys + {path}
    {
      var same := SameBytes(path, bytes);
      if same.Err? {
        return Err(same.error);
      }
      if same.value {
        SweepStaging(path);
        return Ok(());
      }
      StagingCalls(disk, path, bytes, u, ino);
      PublishEffect(disk, path, bytes, u, ino);
      disk := Create(disk, u, ino);
      disk := Fill(disk, u, bytes);
      disk := OpenRecord(disk, u);
      disk := SealRecord(disk, u, Proof(path, u, disk.temps[u], Sha(bytes)));
      disk := LinkTarget(disk, u, path);
      disk := UnlinkTemp(disk, u);
      disk := UnlinkRecord(disk, u);
      r := Ok(());
    }

    // Receipt first, then payload. Whatever crashed writers left, the write
    // succeeds exactly when neither file shows another artifact and a visible
    // payload has a receipt; then both files show exactly this artifact, and no
    // staging name is left on either.
    method Write(job: Job, u: nat, v: nat, ino: nat, jno: nat) returns (r: Result<(), Refusal>)
      requires Sound(disk)
      requires CanCreate(disk, u, ino) && CanCreate(disk, v, jno) && u != v && ino != jno
      modifies this
      ensures Sound(disk) && Grows(old(disk), disk)
      ensures r.Ok? <==> Writable(old(disk), job)
      ensures r.Ok? ==> Complete(disk, job)
      ensures r.Err? ==> disk == old(disk)
      ensures r == Err(ReceiptMissing) <==>
                S.Shows(old(disk), PayloadPath(job.name), PayloadOf(job)) && ReceiptPath(job.name) !in old(disk).targets
      ensures r.Err? ==> r.error == DifferentBytes || r.error == ReceiptMissing
      ensures S.Paired(old(disk)) ==> S.Paired(disk)
      ensures disk.targets.Keys <= old(disk).targets.Keys + {ReceiptPath(job.name), PayloadPath(job.name)}
    {
      hide Sound, S.Paired, Complete, Single;
      var payload, receipt := PayloadPath(job.name), ReceiptPath(job.name);
      var hasPayload := SameBytes(payload, PayloadOf(job));
      if hasPayload.Err? {
        return Err(hasPayload.error);
      }
      var hasReceipt := SameBytes(receipt, ReceiptOf(job));
      if hasReceipt.Err? {
        return Err(hasReceipt.error);
      }
      if hasPayload.value && !hasReceipt.value {
        return Err(ReceiptMissing);
      }
      var first := Publish(receipt, ReceiptOf(job), u, ino);
      ghost var mid := disk;
      var second := Publish(payload, PayloadOf(job), v, jno);
      GrowsTransitive(old(disk), mid, disk);
      PairCompletes(old(disk), mid, disk, job);
      r := second;
    }
  }

  // Two clean publications in a row leave a complete pair.
  lemma PairCompletes(a: Disk, b: Disk, c: Disk, job: Job)
    requires Sound(a) && Sound(b) && Sound(c) && Grows(a, b) && Grows(b, c)
    requires b.targets.Keys <= a.targets.Keys + {ReceiptPath(job.name)}
    requires c.targets.Keys <= b.targets.Keys + {PayloadPath(job.name)}
    requires S.Shows(b, ReceiptPath(job.name), ReceiptOf(job)) && Single(b, ReceiptPath(job.name))
    requires S.Shows(c, PayloadPath(job.name), PayloadOf(job)) && Single(c, PayloadPath(job.name))
    ensures Complete(c, job) && (S.Paired(a) ==> S.Paired(c))
  {
    TargetLinkCount(c, ReceiptPath(job.name));
    TargetLinkCount(c, PayloadPath(job.name));
    assert b.winner[ReceiptPath(job.name)] in b.winner.Values;
    if S.Paired(a) {
      S.NewReceiptKeepsPairs(a, b, job.name);
      S.NewPayloadKeepsPairs(b, c, job);
    }
  }

  // No staging name is left on the path.
  ghost predicate Single(d: Disk, path: Path) {
    path in d.winner && d.winner[path] !in d.temps
  }

  ghost predicate Writable(d: Disk, job: Job)
    requires Sound(d)
  {
    && !S.Conflicts(d, ReceiptPath(job.name), ReceiptOf(job))
    && !S.Conflicts(d, PayloadPath(job.name), PayloadOf(job))
    && (PayloadPath(job.name) in d.targets ==> ReceiptPath(job.name) in d.targets)
  }

  ghost predicate Complete(d: Disk, job: Job)
    requires Sound(d)
  {
    && S.Shows(d, ReceiptPath(job.name), ReceiptOf(job)) && S.Shows(d, PayloadPath(job.name), PayloadOf(job))
    && LinkCount(d, d.targets[ReceiptPath(job.name)]) == 1 && LinkCount(d, d.targets[PayloadPath(job.name)]) == 1
  }

  // On every disk a run can leave, crashed at any point, one retry of an
  // identical write completes the pair: it is refused only when the receipt in
  // place is another artifact's.
  lemma RetryIsRefusedOnlyByAnotherReceipt(w: World, steps: seq<Step>, job: Job)
    requires S.Initial(w) && Legal(w, steps)
    ensures Sound(After(w, steps).disk)
    ensures Writable(After(w, steps).disk, job) <==>
            !S.Conflicts(After(w, steps).disk, ReceiptPath(job.name), ReceiptOf(job))
  {
    S.EveryRunIsSafe(w, steps);
  }

  lemma FillEffect(d: Disk, bytes: Bytes, u: nat, ino: nat)
    requires Sound(d) && CanCreate(d, u, ino)
    ensures var e := FilledDisk(d, bytes, u, ino);
            Sound(e) && Grows(d, e) && !Won(e, u) && e == Fill(Create(d, u, ino), u, bytes)
  {
    hide Grows, Sound, Undisturbed;
    CreateGuarantees(d, u, ino);
    var e := Create(d, u, ino);
    FillGuarantees(e, u, bytes);
    assert Fill(e, u, bytes) == FilledDisk(d, bytes, u, ino);
    GrowsTransitive(d, e, FilledDisk(d, bytes, u, ino));
    assert forall p :: p in e.winner ==> e.winner[p] != u;
  }

  lemma StageEffect(d: Disk, path: Path, bytes: Bytes, u: nat, ino: nat)
    requires Sound(d) && CanCreate(d, u, ino)
    ensures var e := StagedDisk(d, path, bytes, u, ino); Sound(e) && Grows(d, e) && !Won(e, u)
  {
    FillEffect(d, bytes, u, ino);
    var f, e := FilledDisk(d, bytes, u, ino), StagedDisk(d, path, bytes, u, ino);
    RecordGuarantees(f, u, Some(Proof(path, u, ino, Sha(bytes))));
    assert e == f.(records := f.records[u := Some(Proof(path, u, ino, Sha(bytes)))]);
    GrowsTransitive(d, f, e);
  }

  // The calls that write the staging file and its record, in order.
  lemma StagingCalls(d: Disk, path: Path, bytes: Bytes, u: nat, ino: nat)
    ensures u in Create(d, u, ino).temps
    ensures SealRecord(OpenRecord(Fill(Create(d, u, ino), u, bytes), u), u, Proof(path, u, ino, Sha(bytes)))
            == StagedDisk(d, path, bytes, u, ino)
  {
    assert d.inodes[ino := Raw("")][ino := bytes] == d.inodes[ino := bytes];
    var r := Some(Proof(path, u, ino, Sha(bytes)));
    assert d.records[u := None][u := r] == d.records[u := r];
  }

  function FilledDisk(d: Disk, bytes: Bytes, u: nat, ino: nat): Disk {
    d.(inodes := d.inodes[ino := bytes], temps := d.temps[u := ino], minted := d.minted + {u})
  }

  function StagedDisk(d: Disk, path: Path, bytes: Bytes, u: nat, ino: nat): Disk {
    d.(inodes := d.inodes[ino := bytes], temps := d.temps[u := ino],
       records := d.records[u := Some(Proof(path, u, ino, Sha(bytes)))], minted := d.minted + {u})
  }

  lemma LinkEffect(d: Disk, path: Path, bytes: Bytes, u: nat, ino: nat)
    requires Sound(d) && CanCreate(d, u, ino) && path !in d.targets
    ensures var e := LinkTarget(StagedDisk(d, path, bytes, u, ino), u, path);
            Sound(e) && Grows(d, e) && path in e.targets && e.winner[path] == u
  {
    StageEffect(d, path, bytes, u, ino);
    var s := StagedDisk(d, path, bytes, u, ino);
    LinkGuarantees(s, u, path);
    GrowsTransitive(d, s, LinkTarget(s, u, path));
  }

  lemma LinkThenDrop(d: Disk, path: Path, bytes: Bytes, u: nat, ino: nat)
    requires u !in d.temps && u !in d.records && path !in d.targets
    ensures Dropped(LinkTarget(StagedDisk(d, path, bytes, u, ino), u, path), path)
            == PublishedDisk(d, path, bytes, u, ino)
  {
    assert d.temps[u := ino] - {u} == d.temps;
    var r := Some(Proof(path, u, ino, Sha(bytes)));
    assert d.records[u := r] - {u} == d.records;
  }

  lemma PublishEffect(d: Disk, path: Path, bytes: Bytes, u: nat, ino: nat)
    requires Sound(d) && CanCreate(d, u, ino) && path !in d.targets
    ensures var e := LinkTarget(StagedDisk(d, path, bytes, u, ino), u, path);
            var f := PublishedDisk(d, path, bytes, u, ino);
            UnlinkRecord(UnlinkTemp(e, u), u) == f && Sound(f) && Grows(d, f)
  {
    LinkEffect(d, path, bytes, u, ino);
    assert u !in d.temps && u !in d.records;
    LinkThenDrop(d, path, bytes, u, ino);
    var e := LinkTarget(StagedDisk(d, path, bytes, u, ino), u, path);
    DropEffect(e, path);
    GrowsTransitive(d, e, Dropped(e, path));
  }

  // A path's own staging name and record, unlinked in that order.
  function Dropped(d: Disk, path: Path): Disk
    requires path in d.winner
  {
    d.(temps := d.temps - {d.winner[path]}, records := d.records - {d.winner[path]})
  }

  lemma DropEffect(d: Disk, path: Path)
    requires Sound(d) && path in d.targets
    ensures UnlinkRecord(UnlinkTemp(d, d.winner[path]), d.winner[path]) == Dropped(d, path)
    ensures Sound(Dropped(d, path)) && Grows(d, Dropped(d, path))
  {
    var u := d.winner[path];
    WinnersInodeStays(d, path);
    UnlinkTempGuarantees(d, u);
    UnlinkRecordGuarantees(UnlinkTemp(d, u), u);
    GrowsTransitive(d, UnlinkTemp(d, u), Dropped(d, path));
  }

  lemma SweepOne(d: Disk, path: Path, u: nat)
    requires Sound(d) && path in d.targets && u in Recorded(d, path)
    ensures Recorded(d, path) == {u}
    ensures var e := UnlinkRecord(UnlinkTemp(d, u), u);
            e == SweptDisk(d, path) && Sound(e) && Grows(d, e)
  {
    SoundIsAuthentic(d, path);
    DropEffect(d, path);
  }

  lemma WinnersInodeStays(d: Disk, path: Path)
    requires Sound(d) && path in d.targets
    ensures UnlinkTemp(d, d.winner[path]) == d.(temps := d.temps - {d.winner[path]})
  {
    var gone := d.(temps := d.temps - {d.winner[path]});
    NamedInodeIsCounted(gone, path);
    assert ProofOutlives(d, path);
    if d.winner[path] !in d.temps {
      assert d.temps - {d.winner[path]} == d.temps;
    }
  }
}
