// A reader of the publication protocol that nobody disturbs, on any disk
// (src/artifacts/context.ts): call by call it comes to exactly what one
// uninterrupted read accepts.
module SoloReading {
  import opened Outcomes
  import opened PublicationDisk
  import opened PublicationProtocol
  import opened ArtifactStore

  // The reading after these calls, each with the directory entry it looks at.
  predicate CanCall(d: Disk, path: Path, r: Reading, picks: seq<nat>)
    decreases |picks|
  {
    |picks| == 0 || (ReadChoice(r, picks[0]) && CanCall(d, path, ReadStep(d, path, r, picks[0]), picks[1..]))
  }

  function Calls(d: Disk, path: Path, r: Reading, picks: seq<nat>): Reading
    requires CanCall(d, path, r, picks)
    decreases |picks|
  {
    if |picks| == 0 then r else Calls(d, path, ReadStep(d, path, r, picks[0]), picks[1..])
  }

  // ---- The scan --------------------------------------------------------------------

  // What is found so far: the recorded links not still to do, all matching.
  ghost predicate Found(d: Disk, path: Path, todo: set<nat>, owned: set<nat>, shas: set<Sha>)
    requires path in d.targets
  {
    && owned == Recorded(d, path) - todo
    && (forall u :: u in owned ==> Matches(d, path, u))
    && shas == set u | u in owned && u in d.records && d.records[u].Some? :: d.records[u].value.sha
  }

  ghost predicate ScanOk(d: Disk, path: Path, scan: Scan)
    requires path in d.targets
  {
    match scan
    case ScanList => true
    case ScanNext(todo, owned, shas) => todo <= d.temps.Keys && Found(d, path, todo, owned, shas)
    case ScanProve(u, todo, owned, shas) =>
      && todo <= d.temps.Keys && u in d.temps && d.temps[u] == d.targets[path] && u !in todo
      && Found(d, path, todo + {u}, owned, shas)
    case ScanIdentify(u, proof, todo, owned, shas) =>
      && todo <= d.temps.Keys && u in d.temps && d.temps[u] == d.targets[path] && u !in todo
      && u in d.records && d.records[u] == Some(proof) && Found(d, path, todo + {u}, owned, shas)
    case ScanDone(owned, shas) => Found(d, path, {}, owned, shas)
    case ScanBad => exists u :: u in Recorded(d, path) && !Matches(d, path, u)
  }

  lemma ScanStays(d: Disk, path: Path, scan: Scan, pick: nat)
    requires path in d.targets && ScanOk(d, path, scan) && ScanChoice(scan, pick)
    ensures ScanOk(d, path, ScanStep(d, path, d.targets[path], scan, pick))
  {
    match scan
    case ScanList => assert Recorded(d, path) - d.temps.Keys == {};
    case ScanNext(todo, owned, shas) =>
      if todo != {} && pick in d.temps && d.temps[pick] == d.targets[path] {
        assert todo - {pick} + {pick} == todo;
      } else if todo != {} {
        assert Recorded(d, path) - (todo - {pick}) == Recorded(d, path) - todo;
      }
    case ScanProve(u, todo, owned, shas) =>
      if u !in d.records {
        assert Recorded(d, path) - todo == Recorded(d, path) - (todo + {u});
      } else if d.records[u].None? {
        assert u in Recorded(d, path) && !Matches(d, path, u);
      }
    case ScanIdentify(u, proof, todo, owned, shas) =>
      assert u in Recorded(d, path);
      if proof == Proof(path, u, d.temps[u], proof.sha) {
        IdentifiesOne(d, path, u, proof, todo, owned, shas);
      } else {
        assert !Matches(d, path, u);
      }
    case _ =>
  }

  lemma IdentifiesOne(d: Disk, path: Path, u: nat, proof: Proof, todo: set<nat>, owned: set<nat>, shas: set<Sha>)
    requires path in d.targets && u in Recorded(d, path) && u !in todo && d.records[u] == Some(proof)
    requires proof == Proof(path, u, d.targets[path], proof.sha) && Found(d, path, todo + {u}, owned, shas)
    ensures Found(d, path, todo, owned + {u}, shas + {proof.sha})
  {
    assert owned + {u} == Recorded(d, path) - todo;
    assert Matches(d, path, u);
  }

  // ---- The reading -------------------------------------------------------------------

  // The names were all accounted for, and these are the digests they record.
  ghost predicate Accounted(d: Disk, path: Path, shas: set<Sha>)
    requires path in d.targets
  {
    && !ForeignName(d, path) && (forall u :: u in Recorded(d, path) ==> Matches(d, path, u))
    && shas == Digests(d, path)
  }

  ghost predicate ReadingOk(d: Disk, path: Path, r: Reading) {
    match r
    case ReadStat => true
    case ReadCheck(ino, stat, nlink, viaFd, shas, scan) =>
      && path in d.targets && ino == stat == d.targets[path] && nlink == LinkCount(d, ino) && nlink != 1
      && (if viaFd then Accounted(d, path, shas) else shas == {}) && ScanOk(d, path, scan)
    case ReadRecheck(ino, stat, viaFd, shas) =>
      path in d.targets && stat == d.targets[path] && ForeignName(d, path) && LinkCount(d, stat) != 1
    case ReadOpen(ino, shas) => path in d.targets && ino == d.targets[path] && Accounted(d, path, shas)
    case ReadFstat(ino, fd, shas) => path in d.targets && ino == fd == d.targets[path] && Accounted(d, path, shas)
    case ReadContent(fd, shas) => path in d.targets && fd == d.targets[path] && Accounted(d, path, shas)
    case ReadGot(bytes) =>
      path in d.targets && d.targets[path] in d.inodes && bytes == d.inodes[d.targets[path]] && Authentic(d, path)
    case ReadMissing => path !in d.targets
    case ReadRefused(_) => path in d.targets && (d.targets[path] in d.inodes ==> !Authentic(d, path))
  }

  lemma AccountedIs(d: Disk, path: Path, shas: set<Sha>)
    requires path in d.targets && Accounted(d, path, shas) && d.targets[path] in d.inodes
    ensures Authentic(d, path) <==> forall sha :: sha in shas ==> sha == Sha(d.inodes[d.targets[path]])
  {
    CountingNames(d, path);
    hide LinkCount;
    if LinkCount(d, d.targets[path]) == 1 {
      assert Recorded(d, path) == {};
    }
  }

  lemma OneNameIsAccounted(d: Disk, path: Path, shas: set<Sha>)
    requires path in d.targets && LinkCount(d, d.targets[path]) == 1
    ensures Recorded(d, path) == {} && Accounted(d, path, {})
    ensures Accounted(d, path, shas) ==> shas == {}
  {
    CountingNames(d, path);
    assert Recorded(d, path) == {};
  }

  lemma NotAccounted(d: Disk, path: Path)
    requires path in d.targets && d.targets[path] in d.inodes
    requires ForeignName(d, path) || exists u :: u in Recorded(d, path) && !Matches(d, path, u)
    ensures !Authentic(d, path)
  {
    AuthenticMeans(d, path);
  }

  lemma CheckedOut(d: Disk, path: Path, viaFd: bool, shas: set<Sha>, owned: set<nat>, found: set<Sha>)
    requires path in d.targets && LinkCount(d, d.targets[path]) != 1 && Found(d, path, {}, owned, found)
    requires if viaFd then Accounted(d, path, shas) else shas == {}
    ensures owned == Recorded(d, path)
    ensures LinkCount(d, d.targets[path]) == |owned| + 1 ==> Accounted(d, path, shas + found)
    ensures LinkCount(d, d.targets[path]) != |owned| + 1 ==> ForeignName(d, path)
  {
    CountingNames(d, path);
    FoundAll(d, path, owned, found);
    hide LinkCount, Found, Recorded, Digests, Matches, ForeignName;
    assert shas + found == found;
  }

  lemma FoundAll(d: Disk, path: Path, owned: set<nat>, found: set<Sha>)
    requires path in d.targets && Found(d, path, {}, owned, found)
    ensures owned == Recorded(d, path) && found == Digests(d, path) && forall u :: u in Recorded(d, path) ==> Matches(d, path, u)
  {
    assert owned == Recorded(d, path);
  }

  lemma ReadingStays(d: Disk, path: Path, r: Reading, pick: nat)
    requires ReadingOk(d, path, r) && ReadChoice(r, pick)
    ensures ReadingOk(d, path, ReadStep(d, path, r, pick))
  {
    hide LinkCount, Found, ForeignName, Matches, Authentic, Accounted, Digests, Recorded, ScanOk, ScanStep;
    match r
    case ReadStat => if path in d.targets { StatStays(d, path, false, {}); }
    case ReadCheck(_, _, _, _, _, _) => CheckStays(d, path, r, pick);
    case ReadRecheck(_, _, _, _) => if d.targets[path] in d.inodes { NotAccounted(d, path); }
    case ReadOpen(_, _) =>
    case ReadFstat(_, _, shas) => StatStays(d, path, true, shas);
    case ReadContent(_, shas) => if d.targets[path] in d.inodes { AccountedIs(d, path, shas); }
    case _ =>
  }

  lemma StatStays(d: Disk, path: Path, viaFd: bool, shas: set<Sha>)
    requires path in d.targets && if viaFd then Accounted(d, path, shas) else shas == {}
    ensures var ino := d.targets[path]; ReadingOk(d, path, CheckStat(ino, ino, LinkCount(d, ino), viaFd, shas))
  {
    hide LinkCount, Accounted;
    if LinkCount(d, d.targets[path]) == 1 { OneNameIsAccounted(d, path, shas); }
    ScanStarts(d, path);
  }

  lemma CheckStays(d: Disk, path: Path, r: Reading, pick: nat)
    requires r.ReadCheck? && ReadingOk(d, path, r) && ReadChoice(r, pick)
    ensures ReadingOk(d, path, ReadStep(d, path, r, pick))
  {
    hide LinkCount, Found, ForeignName, Matches, Authentic, Accounted, Recorded, ScanOk, ScanStep;
    match r.scan
    case ScanDone(owned, found) => DoneStays(d, path, r, owned, found, pick);
    case ScanBad => ScanRefuses(d, path);
    case scan => ScanStays(d, path, scan, pick);
  }

  lemma DoneSteps(d: Disk, path: Path, r: Reading, owned: set<nat>, found: set<Sha>, pick: nat)
    requires r.ReadCheck? && r.scan == ScanDone(owned, found)
    ensures ReadStep(d, path, r, pick)
         == if r.nlink == |owned| + 1 then Checked(r.ino, r.stat, r.viaFd, r.shas + found)
            else ReadRecheck(r.ino, r.stat, r.viaFd, r.shas + found)
  {
  }

  lemma DoneStays(d: Disk, path: Path, r: Reading, owned: set<nat>, found: set<Sha>, pick: nat)
    requires r.ReadCheck? && r.scan == ScanDone(owned, found) && ReadingOk(d, path, r)
    ensures ReadingOk(d, path, ReadStep(d, path, r, pick))
  {
    hide LinkCount, Found, ForeignName, Accounted, ScanOk, ScanStep, Recorded, Matches, Digests, Authentic, ReadStep;
    ScanEnds(d, path, owned, found);
    DoneSteps(d, path, r, owned, found, pick);
    CheckedOut(d, path, r.viaFd, r.shas, owned, found);
  }

  lemma ScanStarts(d: Disk, path: Path)
    requires path in d.targets
    ensures ScanOk(d, path, ScanList)
  {
  }

  lemma ScanEnds(d: Disk, path: Path, owned: set<nat>, found: set<Sha>)
    requires path in d.targets && ScanOk(d, path, ScanDone(owned, found))
    ensures Found(d, path, {}, owned, found)
  {
  }

  lemma ScanRefuses(d: Disk, path: Path)
    requires path in d.targets && ScanOk(d, path, ScanBad)
    ensures d.targets[path] in d.inodes ==> !Authentic(d, path)
  {
    if d.targets[path] in d.inodes { NotAccounted(d, path); }
  }

  lemma {:induction false} CallsStay(d: Disk, path: Path, r: Reading, picks: seq<nat>)
    requires ReadingOk(d, path, r) && CanCall(d, path, r, picks)
    ensures ReadingOk(d, path, Calls(d, path, r, picks))
    decreases |picks|
  {
    hide ReadingOk;
    if |picks| > 0 {
      ReadingStays(d, path, r, picks[0]);
      CallsStay(d, path, ReadStep(d, path, r, picks[0]), picks[1..]);
    }
  }

  // Whatever is on the disk, and in whatever order the directory is listed: a
  // reader that comes to its end undisturbed found nothing where there is no path;
  // and where there is one, it returns the bytes exactly when every other name of
  // their inode is a staging file whose complete record binds it to this path,
  // this inode and these bytes. Otherwise it refuses.
  lemma SoloReadIsExact(d: Disk, path: Path, picks: seq<nat>)
    requires CanCall(d, path, ReadStat, picks) && ReadFinished(Calls(d, path, ReadStat, picks))
    ensures var r := Calls(d, path, ReadStat, picks);
            && (r.ReadMissing? <==> path !in d.targets)
            && (path in d.targets && d.targets[path] !in d.inodes ==> r.ReadRefused?)
            && (path in d.targets && d.targets[path] in d.inodes ==>
                  var ino, bytes := d.targets[path], d.inodes[d.targets[path]];
                  && (r == ReadGot(bytes) || r.ReadRefused?)
                  && (r == ReadGot(bytes) <==>
                        && (forall q :: q in d.targets && d.targets[q] == ino ==> q == path)
                        && (forall u :: u in d.temps && d.temps[u] == ino ==>
                              u in d.records && d.records[u] == Some(Proof(path, u, ino, Sha(bytes))))))
  {
    hide Calls, CanCall, Authentic;
    CallsStay(d, path, ReadStat, picks);
    if path in d.targets && d.targets[path] in d.inodes {
      AuthenticMeans(d, path);
    }
  }
}
