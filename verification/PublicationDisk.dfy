// The names, inodes and private ownership records that artifact publication
// works on (src/artifacts/context.ts), and what every file-system call keeps.
module PublicationDisk {
  import opened Outcomes

  // Published bytes: free text, or a receipt that names its payload's digest.
  datatype Bytes = Raw(text: string) | ReceiptBytes(sha: Sha, provenance: string)

  // The digest of some bytes; sha256 is taken to be injective.
  datatype Sha = Sha(of: Bytes)

  // Where an artifact's payload and its receipt are published.
  datatype Path = PayloadPath(name: string) | ReceiptPath(name: string)

  // One publication staging record.
  datatype Proof = Proof(target: Path, temporary: nat, ino: nat, sha: Sha)

  // `temps` and `records` are keyed by UUID; a record is None while its one
  // write is unfinished. `winner` and `minted` are history: whose staging file
  // each target was linked from, and every UUID drawn so far.
  datatype Disk = Disk(
    inodes: map<nat, Bytes>,
    targets: map<Path, nat>,
    temps: map<nat, nat>,
    records: map<nat, Option<Proof>>,
    winner: map<Path, nat>,
    minted: set<nat>)

  // The number of names of an inode.
  function LinkCount(d: Disk, ino: nat): nat {
    |set p | p in d.targets && d.targets[p] == ino| + |set u | u in d.temps && d.temps[u] == ino|
  }

  ghost function Content(d: Disk, p: Path): Bytes
    requires Sound(d) && p in d.targets
  {
    d.inodes[d.targets[p]]
  }

  // ---- The file-system calls of one publication ------------------------------

  // Create the staging file, still empty.
  predicate CanCreate(d: Disk, u: nat, ino: nat) {
    u !in d.minted && ino !in d.inodes
  }

  function Create(d: Disk, u: nat, ino: nat): Disk {
    d.(inodes := d.inodes[ino := Raw("")], temps := d.temps[u := ino], minted := d.minted + {u})
  }

  function Fill(d: Disk, u: nat, bytes: Bytes): Disk
    requires u in d.temps
  {
    d.(inodes := d.inodes[d.temps[u] := bytes])
  }

  function OpenRecord(d: Disk, u: nat): Disk {
    d.(records := d.records[u := None])
  }

  function SealRecord(d: Disk, u: nat, proof: Proof): Disk {
    d.(records := d.records[u := Some(proof)])
  }

  // The exclusive link: it changes nothing when the target name exists.
  function LinkTarget(d: Disk, u: nat, p: Path): Disk
    requires u in d.temps
  {
    if p in d.targets then d
    else d.(targets := d.targets[p := d.temps[u]], winner := d.winner[p := u])
  }

  // An inode lives as long as a name does.
  function UnlinkTemp(d: Disk, u: nat): Disk {
    if u !in d.temps then d
    else
      var gone := d.(temps := d.temps - {u});
      if LinkCount(gone, d.temps[u]) == 0 then gone.(inodes := d.inodes - {d.temps[u]}) else gone
  }

  function UnlinkRecord(d: Disk, u: nat): Disk {
    d.(records := d.records - {u})
  }

  // ---- The disk invariant -----------------------------------------------------

  predicate Won(d: Disk, u: nat) {
    exists p :: p in d.winner && d.winner[p] == u
  }

  // The one staging file a published target can still share its inode with has
  // a complete matching record for as long as it exists.
  ghost predicate ProofOutlives(d: Disk, p: Path) {
    p in d.winner && p in d.targets && d.targets[p] in d.inodes
    && (d.winner[p] in d.temps ==> d.temps[d.winner[p]] == d.targets[p] && d.winner[p] in d.records)
    && (d.winner[p] in d.records ==>
          d.records[d.winner[p]] == Some(Proof(p, d.winner[p], d.targets[p], Sha(d.inodes[d.targets[p]]))))
  }

  ghost predicate Sound(d: Disk) {
    && d.winner.Keys == d.targets.Keys
    && (forall p :: p in d.targets ==> ProofOutlives(d, p))
    && (forall p, q :: p in d.targets && q in d.targets && p != q ==>
          d.targets[p] != d.targets[q] && d.winner[p] != d.winner[q])
    && (forall u :: u in d.temps ==> d.temps[u] in d.inodes)
    && (forall u, v :: u in d.temps && v in d.temps && u != v ==> d.temps[u] != d.temps[v])
    && (forall u, p :: u in d.temps && p in d.targets && d.temps[u] == d.targets[p] ==> d.winner[p] == u)
    && d.temps.Keys <= d.minted && d.records.Keys <= d.minted && d.winner.Values <= d.minted
  }

  // A published target has one name, or two while its winner's staging file
  // still exists.
  lemma TargetLinkCount(d: Disk, p: Path)
    requires Sound(d) && p in d.targets
    ensures LinkCount(d, d.targets[p]) == if d.winner[p] in d.temps then 2 else 1
  {
    var ino := d.targets[p];
    assert (set q | q in d.targets && d.targets[q] == ino) == {p};
    assert (set u | u in d.temps && d.temps[u] == ino) == if d.winner[p] in d.temps then {d.winner[p]} else {};
  }

  // ---- What other processes may see of a call ----------------------------------

  // Publication is for ever, and a staging name never comes back.
  ghost predicate Grows(a: Disk, b: Disk)
    requires Sound(a) && Sound(b)
  {
    && a.minted <= b.minted
    && (forall p :: p in a.targets ==>
          && p in b.targets && b.targets[p] == a.targets[p] && b.winner[p] == a.winner[p]
          && b.inodes[b.targets[p]] == a.inodes[a.targets[p]])
    && (forall u :: u in a.minted && u !in a.temps ==> u !in b.temps)
  }

  lemma GrowsTransitive(a: Disk, b: Disk, c: Disk)
    requires Sound(a) && Sound(b) && Sound(c) && Grows(a, b) && Grows(b, c)
    ensures Grows(a, c)
  {
  }

  // A staging file that has not been linked to a target is touched by nobody
  // but the publisher that minted it.
  ghost predicate Undisturbed(a: Disk, b: Disk, u: nat)
    requires Sound(a) && Sound(b)
  {
    !Won(a, u) ==>
      && !Won(b, u)
      && (u in a.temps <==> u in b.temps)
      && (u in a.temps ==> a.temps[u] == b.temps[u] && a.inodes[a.temps[u]] == b.inodes[b.temps[u]])
      && (u in a.records <==> u in b.records)
      && (u in a.records ==> a.records[u] == b.records[u])
  }

  // What a process that holds the UUIDs `mine` does to everybody else.
  ghost predicate Guarantees(a: Disk, b: Disk, mine: set<nat>) {
    Sound(a) && Sound(b) && Grows(a, b)
    && forall u :: u in a.minted && u !in mine ==> Undisturbed(a, b, u)
  }

  lemma UnlinkedIsPrivate(d: Disk, u: nat)
    requires Sound(d) && u in d.temps && !Won(d, u)
    ensures forall p :: p in d.targets ==> d.targets[p] != d.temps[u] && d.winner[p] != u
  {
  }

  lemma NamedInodeIsCounted(d: Disk, p: Path)
    requires p in d.targets
    ensures LinkCount(d, d.targets[p]) > 0
  {
    var names := set q | q in d.targets && d.targets[q] == d.targets[p];
    assert p in names;
  }

  lemma CreateIsSound(d: Disk, u: nat, ino: nat)
    requires Sound(d) && CanCreate(d, u, ino)
    ensures Sound(Create(d, u, ino)) && !Won(Create(d, u, ino), u)
  {
    var e := Create(d, u, ino);
    forall p | p in d.winner ensures d.winner[p] != u && ProofOutlives(e, p) {
      assert d.winner[p] in d.winner.Values;
      assert ProofOutlives(d, p);
    }
  }

  lemma CreateGuarantees(d: Disk, u: nat, ino: nat)
    requires Sound(d) && CanCreate(d, u, ino)
    ensures Guarantees(d, Create(d, u, ino), {})
    ensures !Won(Create(d, u, ino), u)
  {
    CreateIsSound(d, u, ino);
    var e := Create(d, u, ino);
    forall v | v in d.minted ensures Undisturbed(d, e, v) {
      assert v != u;
    }
  }

  lemma FillGuarantees(d: Disk, u: nat, bytes: Bytes)
    requires Sound(d) && u in d.temps && !Won(d, u)
    ensures Guarantees(d, Fill(d, u, bytes), {u})
  {
    var e := Fill(d, u, bytes);
    UnlinkedIsPrivate(d, u);
    assert Sound(e);
  }

  lemma RecordGuarantees(d: Disk, u: nat, record: Option<Proof>)
    requires Sound(d) && u in d.minted && !Won(d, u)
    ensures Guarantees(d, d.(records := d.records[u := record]), {u})
  {
    var e := d.(records := d.records[u := record]);
    forall p | p in d.targets ensures ProofOutlives(e, p) {
      assert ProofOutlives(d, p);
      assert d.winner[p] != u;
    }
    assert Sound(e);
  }

  // A staging file ready to be linked: complete, recorded, and nobody's target.
  ghost predicate Linkable(d: Disk, u: nat, p: Path) {
    && Sound(d) && u in d.temps && !Won(d, u)
    && u in d.records && d.records[u] == Some(Proof(p, u, d.temps[u], Sha(d.inodes[d.temps[u]])))
  }

  lemma LinkKeepsProofs(d: Disk, u: nat, p: Path)
    requires Linkable(d, u, p) && p !in d.targets
    ensures forall q :: q in LinkTarget(d, u, p).targets ==> ProofOutlives(LinkTarget(d, u, p), q)
  {
    var e := LinkTarget(d, u, p);
    forall q | q in e.targets ensures ProofOutlives(e, q) {
      if q != p { assert ProofOutlives(d, q); }
    }
  }

  lemma LinkIsSound(d: Disk, u: nat, p: Path)
    requires Linkable(d, u, p) && p !in d.targets
    ensures Sound(LinkTarget(d, u, p))
  {
    LinkKeepsProofs(d, u, p);
    UnlinkedIsPrivate(d, u);
    hide ProofOutlives;
    assert LinkTarget(d, u, p).winner.Values <= d.winner.Values + {u};
  }

  lemma LinkGuarantees(d: Disk, u: nat, p: Path)
    requires Sound(d) && u in d.temps && !Won(d, u)
    requires u in d.records && d.records[u] == Some(Proof(p, u, d.temps[u], Sha(d.inodes[d.temps[u]])))
    ensures Guarantees(d, LinkTarget(d, u, p), {u})
  {
    hide Sound, Undisturbed, Grows, LinkTarget;
    if p in d.targets {
      LinkTakenChangesNothing(d, u, p);
    } else {
      LinkIsSound(d, u, p);
      LinkGrows(d, u, p);
      forall v | v in d.minted && v != u ensures Undisturbed(d, LinkTarget(d, u, p), v) {
        LinkDisturbsNobody(d, u, p, v);
      }
    }
  }

  lemma LinkTakenChangesNothing(d: Disk, u: nat, p: Path)
    requires Sound(d) && u in d.temps && p in d.targets
    ensures Guarantees(d, LinkTarget(d, u, p), {u})
  {
    hide Sound;
  }

  lemma LinkGrows(d: Disk, u: nat, p: Path)
    requires Sound(d) && u in d.temps && p !in d.targets && Sound(LinkTarget(d, u, p))
    ensures Grows(d, LinkTarget(d, u, p))
  {
    assert d.winner.Keys == d.targets.Keys;
    hide Sound;
  }

  lemma LinkDisturbsNobody(d: Disk, u: nat, p: Path, v: nat)
    requires Sound(d) && u in d.temps && p !in d.targets && Sound(LinkTarget(d, u, p)) && v != u
    ensures Undisturbed(d, LinkTarget(d, u, p), v)
  {
    hide Sound;
    var e := LinkTarget(d, u, p);
    if Won(e, v) {
      var q :| q in e.winner && e.winner[q] == v;
      assert q in d.winner && d.winner[q] == v;
    }
  }

  ghost predicate LosesTemp(d: Disk, e: Disk, u: nat) {
    && e == d.(temps := d.temps - {u}, inodes := e.inodes)
    && (forall p :: p in d.targets ==> d.targets[p] in e.inodes)
    && (forall v :: v in e.temps ==> e.temps[v] in e.inodes)
    && (forall i :: i in e.inodes ==> i in d.inodes && e.inodes[i] == d.inodes[i])
  }

  lemma LosingTempIsSound(d: Disk, e: Disk, u: nat)
    requires Sound(d) && LosesTemp(d, e, u)
    ensures Sound(e)
  {
    forall p | p in d.targets ensures ProofOutlives(e, p) {
      assert ProofOutlives(d, p);
    }
  }

  lemma LosingTempGuarantees(d: Disk, e: Disk, u: nat)
    requires Sound(d) && Sound(e) && LosesTemp(d, e, u)
    ensures Guarantees(d, e, {u})
    ensures Won(d, u) ==> Guarantees(d, e, {})
  {
    forall v | v in d.minted && v != u ensures Undisturbed(d, e, v) {
    }
  }

  // Unlinking a staging name frees no inode that still has one.
  lemma UnlinkTempEffect(d: Disk, u: nat)
    requires Sound(d)
    ensures LosesTemp(d, UnlinkTemp(d, u), u)
  {
    if u in d.temps {
      var gone := d.(temps := d.temps - {u});
      forall p | p in gone.targets ensures LinkCount(gone, gone.targets[p]) != 0 {
        NamedInodeIsCounted(gone, p);
      }
    } else {
      assert d.temps - {u} == d.temps;
    }
  }

  lemma UnlinkTempGuarantees(d: Disk, u: nat)
    requires Sound(d)
    ensures Guarantees(d, UnlinkTemp(d, u), {u})
    ensures Won(d, u) ==> Guarantees(d, UnlinkTemp(d, u), {})
  {
    UnlinkTempEffect(d, u);
    LosingTempIsSound(d, UnlinkTemp(d, u), u);
    LosingTempGuarantees(d, UnlinkTemp(d, u), u);
  }

  // A record is only ever unlinked after its staging file is gone.
  lemma UnlinkRecordGuarantees(d: Disk, u: nat)
    requires Sound(d) && u !in d.temps
    ensures Guarantees(d, UnlinkRecord(d, u), {u})
    ensures Won(d, u) ==> Guarantees(d, UnlinkRecord(d, u), {})
  {
    var e := UnlinkRecord(d, u);
    forall p | p in d.targets ensures ProofOutlives(e, p) {
      assert ProofOutlives(d, p);
    }
    assert Sound(e);
  }
}
