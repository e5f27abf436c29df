// One writer's pass over the uploads directory, in the source's own order of
// file-system calls (src/attachments/resolver.ts: materializeUpload).
module UploadsDirectory {
  import opened Outcomes
  import opened UploadClaims
  import P = UploadProtocol

  const MAX_UPLOAD_BYTES: nat := 8 * 1024 * 1024

  // A refusal with its status, or a file-system error passed on as it is.
  datatype Failure = AttachError(status: nat) | SystemError

  // The calls of one upload that the file system can fail, unlinks aside.
  datatype Call = Harden | CleanupScan | WriteClaim | ElectScan | RenameClaim | AuditScan

  // What fails: calls, unlinks (by the name they are given), and whether a
  // failed claim write leaves the file behind.
  datatype Faults = Faults(failing: set<Call>, stuck: set<string>, partly: bool)

  datatype Unlinked = Removed | Missing | Stuck

  // ---- What the loops compute ----------------------------------------------

  function PayloadsOf(entries: seq<Entry>): seq<Entry> {
    if |entries| == 0 then []
    else PayloadsOf(entries[..|entries| - 1]) + (if IsClaim(entries[|entries| - 1]) then [] else [entries[|entries| - 1]])
  }

  function ClaimsOf(entries: seq<Entry>): seq<Entry> {
    if |entries| == 0 then []
    else ClaimsOf(entries[..|entries| - 1]) + (if IsClaim(entries[|entries| - 1]) then [entries[|entries| - 1]] else [])
  }

  // The entries left when every name in `gone` has been unlinked.
  function Without(entries: seq<Entry>, gone: set<string>): (left: seq<Entry>)
    ensures forall e :: e in left <==> e in entries && e.name !in gone
  {
    if |entries| == 0 then []
    else (if entries[0].name in gone then [] else [entries[0]]) + Without(entries[1..], gone)
  }

  // The first abandoned claim whose unlink fails: cleanup gets no further.
  function FirstStuck(claims: seq<Entry>, pid: nat, now: nat, alive: set<nat>, stuck: set<string>): (i: nat)
    ensures i <= |claims|
    ensures i < |claims| ==> Abandoned(claims[i], pid, now, alive) && claims[i].name in stuck
    ensures forall k :: 0 <= k < i ==> !(Abandoned(claims[k], pid, now, alive) && claims[k].name in stuck)
  {
    if |claims| == 0 || (Abandoned(claims[0], pid, now, alive) && claims[0].name in stuck) then 0
    else 1 + FirstStuck(claims[1..], pid, now, alive, stuck)
  }

  // The names cleanup unlinks.
  function AbandonedNames(claims: seq<Entry>, pid: nat, now: nat, alive: set<nat>): set<string> {
    set e | e in claims && Abandoned(e, pid, now, alive) :: e.name
  }

  lemma {:induction false} WithoutTwice(entries: seq<Entry>, first: set<string>, second: set<string>)
    ensures Without(Without(entries, first), second) == Without(entries, first + second)
  {
    if |entries| > 0 {
      WithoutTwice(entries[1..], first, second);
      var head := if entries[0].name in first then [] else [entries[0]];
      WithoutConcat(head, Without(entries[1..], first), second);
    }
  }

  lemma {:induction false} WithoutKeepsDistinct(entries: seq<Entry>, gone: set<string>)
    requires DistinctNames(entries)
    ensures DistinctNames(Without(entries, gone))
  {
    if |entries| > 0 {
      WithoutKeepsDistinct(entries[1..], gone);
      var rest := Without(entries[1..], gone);
      forall r | r in rest ensures r.name != entries[0].name {
        assert r in entries[1..];
      }
    }
  }

  lemma {:induction false} WithoutUnused(entries: seq<Entry>, gone: set<string>)
    requires forall e :: e in entries ==> e.name !in gone
    ensures Without(entries, gone) == entries
  {
    if |entries| > 0 {
      WithoutUnused(entries[1..], gone);
    }
  }

  lemma {:induction false} WithoutConcat(a: seq<Entry>, b: seq<Entry>, gone: set<string>)
    ensures Without(a + b, gone) == Without(a, gone) + Without(b, gone)
  {
    if |a| == 0 {
      assert a + b == b;
    } else {
      assert (a + b)[1..] == a[1..] + b;
      WithoutConcat(a[1..], b, gone);
    }
  }

  lemma {:induction false} ScanMembers(entries: seq<Entry>)
    ensures forall e :: e in ClaimsOf(entries) <==> e in entries && IsClaim(e)
    ensures forall e :: e in PayloadsOf(entries) <==> e in entries && !IsClaim(e)
  {
    if |entries| > 0 {
      ScanMembers(entries[..|entries| - 1]);
      assert entries == entries[..|entries| - 1] + [entries[|entries| - 1]];
    }
  }

  lemma {:induction false} ScanKeepsDistinct(entries: seq<Entry>)
    requires DistinctNames(entries)
    ensures DistinctNames(ClaimsOf(entries))
  {
    if |entries| > 0 {
      var init := entries[..|entries| - 1];
      ScanKeepsDistinct(init);
      ScanMembers(init);
      forall e | e in ClaimsOf(init) ensures e.name != entries[|entries| - 1].name {
        assert e in init;
      }
    }
  }

  lemma {:induction false} ScanCountsPayloads(entries: seq<Entry>)
    requires DistinctNames(entries)
    ensures |PayloadsOf(entries)| == |P.Payloads(ToSet(entries))|
  {
    if |entries| > 0 {
      var init, last := entries[..|entries| - 1], entries[|entries| - 1];
      ScanCountsPayloads(init);
      assert entries == init + [last];
      assert last !in init;
      assert P.Payloads(ToSet(entries)) == P.Payloads(ToSet(init)) + (if IsClaim(last) then {} else {last});
    }
  }

  // A scan is the directory: same elements, each exactly once.
  lemma ScanIsExact(entries: seq<Entry>)
    requires DistinctNames(entries)
    ensures DistinctNames(ClaimsOf(entries))
    ensures ToSet(ClaimsOf(entries)) == P.Claims(ToSet(entries))
    ensures |PayloadsOf(entries)| == |P.Payloads(ToSet(entries))|
    ensures forall e :: e in ClaimsOf(entries) ==> e in entries
  {
    ScanMembers(entries);
    ScanKeepsDistinct(entries);
    ScanCountsPayloads(entries);
  }

  class UploadsDir {
    // Directory entries in listing order.
    var entries: seq<Entry>
    // Whether other processes act on the directory between this one's calls.
    const shared: bool

    ghost predicate Valid()
      reads this
    {
      DistinctNames(entries)
    }

    constructor (existing: seq<Entry>, shared: bool)
      requires DistinctNames(existing)
      ensures Valid() && entries == existing && this.shared == shared
    {
      entries, this.shared := existing, shared;
    }

    // The other processes' calls: any change, including the loss of this
    // writer's own files, except minting one of its unique names.
    method Elsewhere(mine: set<string>)
      requires Valid()
      modifies this
      ensures Valid() && forall e :: e in entries && e.name in mine ==> e in old(entries)
      ensures !shared ==> entries == old(entries)
    {
      var others: seq<Entry> := *;
      if shared
         && (forall i, j :: 0 <= i < j < |others| ==> others[i].name != others[j].name)
         && (forall i :: 0 <= i < |others| && others[i].name in mine ==> others[i] in entries)
      {
        entries := others;
      }
    }

    method ScanUploadsDir() returns (payloads: seq<Entry>, claims: seq<Entry>)
      ensures payloads == PayloadsOf(entries) && claims == ClaimsOf(entries)
    {
      payloads, claims := [], [];
      var i := 0;
      while i < |entries|
        invariant 0 <= i <= |entries|
        invariant payloads == PayloadsOf(entries[..i]) && claims == ClaimsOf(entries[..i])
      {
        assert entries[..i + 1][..i] == entries[..i];
        if IsClaim(entries[i]) {
          claims := claims + [entries[i]];
        } else {
          payloads := payloads + [entries[i]];
        }
        i := i + 1;
      }
      assert entries[..i] == entries;
    }

    method Unlink(name: string, stuck: set<string>) returns (outcome: Unlinked)
      requires Valid()
      modifies this
      ensures Valid() && entries == if outcome.Removed? then Without(old(entries), {name}) else old(entries)
      ensures outcome.Missing? <==> forall e :: e in old(entries) ==> e.name != name
      ensures outcome.Stuck? ==> name in stuck
      ensures outcome.Removed? ==> name !in stuck
    {
      if forall i :: 0 <= i < |entries| ==> entries[i].name != name { return Missing; }
      if name in stuck { return Stuck; }
      WithoutKeepsDistinct(entries, {name});
      entries := Without(entries, {name});
      outcome := Removed;
    }

    // Cleanup unlinks the abandoned claims in listing order, up to the first
    // that it cannot unlink.
    method CleanupAbandonedUploadClaims(pid: nat, now: nat, alive: set<nat>, faults: Faults)
      returns (r: Result<(), Failure>)
      requires Valid()
      modifies this
      ensures Valid() && (r.Err? ==> r.error == AttachError(500))
      ensures r.Ok? <==> CleanupScan !in faults.failing
                         && forall e :: e in old(entries) && Abandoned(e, pid, now, alive) ==> e.name !in faults.stuck
      ensures entries == if CleanupScan in faults.failing then old(entries)
                         else Cleaned(old(entries), pid, now, alive, faults.stuck)
    {
      hide Abandoned, FirstStuck, AbandonedNames, Without, PayloadsOf, ClaimsOf, IsClaim, DistinctNames;
      if CleanupScan in faults.failing { return Err(AttachError(500)); }
      var payloads, claims := ScanUploadsDir();
      ghost var before := entries;
      ghost var stop := FirstStuck(claims, pid, now, alive, faults.stuck);
      CleanupStarts(entries, claims, pid, now, alive);
      StuckDecides(entries, pid, now, alive, faults.stuck);
      r := Ok(());
      for i := 0 to |claims|
        invariant Valid() && i <= stop && r.Ok?
        invariant entries == Without(before, AbandonedNames(claims[..i], pid, now, alive))
      {
        OneMoreAbandoned(before, claims, i, pid, now, alive);
        StillListed(before, claims, i, pid, now, alive);
        StopIsFirst(claims, i, pid, now, alive, faults.stuck);
        r := ReclaimIfAbandoned(claims[i], pid, now, alive, faults.stuck);
        if r.Err? { return; }
      }
    }

    method ReclaimIfAbandoned(claim: Entry, pid: nat, now: nat, alive: set<nat>, stuck: set<string>)
      returns (r: Result<(), Failure>)
      requires Valid() && claim in entries
      modifies this
      ensures Valid() && r == if Abandoned(claim, pid, now, alive) && claim.name in stuck then Err(AttachError(500)) else Ok(())
      ensures entries == if r.Ok? && Abandoned(claim, pid, now, alive) then Without(old(entries), {claim.name}) else old(entries)
    {
      hide Abandoned;
      if !Abandoned(claim, pid, now, alive) { return Ok(()); }
      var outcome := Unlink(claim.name, stuck);
      r := if outcome.Stuck? then Err(AttachError(500)) else Ok(());
    }

    // The rename of a claim onto its final name; false is ENOENT or a fault.
    method Rename(from: string, to: string, fails: bool) returns (moved: bool)
      requires Valid() && forall e :: e in entries ==> e.name != to
      modifies this
      ensures Valid()
      ensures moved <==> !fails && exists e :: e in old(entries) && e.name == from
      ensures moved ==> entries == Without(old(entries), {from}) + [Payload(to)]
      ensures !moved ==> entries == old(entries)
    {
      moved := false;
      if !fails && exists i :: 0 <= i < |entries| && entries[i].name == from {
        WithoutKeepsDistinct(entries, {from});
        entries := Without(entries, {from}) + [Payload(to)];
        moved := true;
      }
    }

    // The scan and FIFO election of one claim.
    method Elect(mine: Entry) returns (elected: bool)
      requires Valid() && IsClaim(mine)
      requires forall e :: e in entries && e.name == mine.name ==> e == mine
      ensures elected == P.Admits(P.MAX_UPLOAD_FILES, ToSet(entries), mine)
    {
      var payloads, claims := ScanUploadsDir();
      var free := P.MAX_UPLOAD_FILES - |payloads|;
      var rank := IndexOfName(RankUploadClaims(claims), mine.name);
      ElectionMatchesProtocol(entries, mine);
      elected := !(free <= 0 || rank < 0 || rank >= free);
    }

    // The post-commit audit: keep the payload, or shed it when over the cap.
    // A failed audit leaves the payload, over the cap or not.
    method AuditCommit(target: string, faults: Faults) returns (r: Result<(), Failure>)
      requires Valid()
      modifies this
      ensures Valid()
      ensures r.Ok? <==> AuditScan !in faults.failing && |P.Payloads(ToSet(old(entries)))| <= P.MAX_UPLOAD_FILES
      ensures r.Err? ==> r.error == AttachError(500) || r.error == AttachError(507)
      ensures entries == if r == Err(AttachError(507)) then Without(old(entries), {target}) else old(entries)
      ensures r == Err(AttachError(500)) <==>
              || AuditScan in faults.failing
              || (|P.Payloads(ToSet(old(entries)))| > P.MAX_UPLOAD_FILES
                  && (target in faults.stuck || forall e :: e in old(entries) ==> e.name != target))
    {
      if AuditScan in faults.failing { return Err(AttachError(500)); }
      var payloads, claims := ScanUploadsDir();
      ScanIsExact(entries);
      if |payloads| <= P.MAX_UPLOAD_FILES { return Ok(()); }
      var outcome := Unlink(target, faults.stuck);
      r := Err(AttachError(if outcome.Removed? then 507 else 500));
    }

    // Materializes one upload. Alone, outcome and directory are determined by
    // what fails. Among other processes a success was audited, a failure leaves
    // its claim only where the claim's unlink or write failed, and its payload
    // only where the audit or the payload's unlink did.
    method MaterializeUpload(size: nat, pid: nat, now: nat, stamp: nat, claimName: string, target: string,
                             alive: set<nat>, faults: Faults)
      returns (r: Result<string, Failure>)
      requires Valid() && claimName != target
      requires forall e :: e in entries ==> e.name != claimName && e.name != target
      modifies this
      ensures Valid()
      ensures size == 0 ==> r == Err(AttachError(400)) && entries == old(entries)
      ensures size > MAX_UPLOAD_BYTES ==> r == Err(AttachError(413)) && entries == old(entries)
      ensures r.Ok? ==> r.value == target && |P.Payloads(ToSet(entries))| <= P.MAX_UPLOAD_FILES
      ensures r.Ok? ==> forall e :: e in entries ==> e.name != claimName
      ensures r.Err? && claimName !in faults.stuck && !(WriteClaim in faults.failing && faults.partly) ==>
                forall e :: e in entries ==> e.name != claimName
      ensures r.Err? && target !in faults.stuck && AuditScan !in faults.failing ==>
                forall e :: e in entries ==> e.name != target
      ensures !shared && 0 < size <= MAX_UPLOAD_BYTES ==>
                (r, entries) == AloneOutcome(old(entries), pid, now, alive, ClaimFor(claimName, stamp, pid), target, faults)
    {
      if size == 0 { return Err(AttachError(400)); }
      if size > MAX_UPLOAD_BYTES { return Err(AttachError(413)); }
      if Harden in faults.failing { return Err(SystemError); }
      ghost var before := entries;
      StuckDecides(entries, pid, now, alive, faults.stuck);
      var cleaned := CleanupAbandonedUploadClaims(pid, now, alive, faults);
      CleanedOnlyLoses(before, pid, now, alive, faults.stuck);
      if cleaned.Err? { return Err(cleaned.error); }
      var mine := ClaimFor(claimName, stamp, pid);
      if WriteClaim in faults.failing {
        if faults.partly { entries := entries + [mine]; }
        return Err(AttachError(500));
      }
      r := CommitClaim(mine, target, faults);
    }

    // From the claim's appearance in the directory to the end of its audit.
    method CommitClaim(mine: Entry, target: string, faults: Faults) returns (r: Result<string, Failure>)
      requires Valid() && IsClaim(mine) && mine.name != target
      requires forall e :: e in entries ==> e.name != mine.name && e.name != target
      modifies this
      ensures Valid()
      ensures r.Ok? ==> r.value == target && |P.Payloads(ToSet(entries))| <= P.MAX_UPLOAD_FILES
      ensures r.Ok? || mine.name !in faults.stuck ==> forall e :: e in entries ==> e.name != mine.name
      ensures r.Err? && target !in faults.stuck && AuditScan !in faults.failing ==>
                forall e :: e in entries ==> e.name != target
      ensures !shared ==> (r, entries) == AloneCommit(old(entries), mine, target, faults)
    {
      hide P.Admits, Without, PayloadsOf, P.Payloads, ToSet, IsClaim;
      ghost var kept := entries;
      entries := entries + [mine];
      assert mine in entries;
      r := TakeSlot(mine, target, faults);
      if r.Err? {
        UndoClaim(kept, mine);
        return;
      }
      Elsewhere({mine.name, target});
      ReplaceClaim(kept, mine, target);
      AdmittedFits(kept, mine, target);
      var audited := AuditCommit(target, faults);
      r := if audited.Ok? then Ok(target) else Err(audited.error);
    }

    // Election, then the rename; whatever goes wrong withdraws the claim.
    method TakeSlot(mine: Entry, target: string, faults: Faults) returns (r: Result<string, Failure>)
      requires Valid() && IsClaim(mine) && mine.name != target
      requires forall e :: e in entries ==> e.name != target && (e.name == mine.name ==> e == mine)
      modifies this
      ensures Valid()
      ensures r.Ok? || mine.name !in faults.stuck ==> forall e :: e in entries ==> e.name != mine.name
      ensures r.Err? ==> forall e :: e in entries ==> e.name != target
      ensures r.Ok? ==> r.value == target
      ensures !shared && mine in old(entries) ==>
                if ElectScan in faults.failing || RenameClaim in faults.failing || !P.Admits(P.MAX_UPLOAD_FILES, ToSet(old(entries)), mine)
                then && r == Err(AttachError(Refusal(faults, P.Admits(P.MAX_UPLOAD_FILES, ToSet(old(entries)), mine))))
                     && entries == (if mine.name in faults.stuck then old(entries) else Without(old(entries), {mine.name}))
                else r.Ok? && entries == Without(old(entries), {mine.name}) + [Payload(target)]
    {
      hide P.Admits, PayloadsOf, ToSet, IsClaim;
      Elsewhere({mine.name, target});
      var elected := false;
      if ElectScan !in faults.failing { elected := Elect(mine); }
      if !elected {
        Withdraw(mine.name, faults.stuck);
        return Err(AttachError(if ElectScan in faults.failing then 500 else 507));
      }
      Elsewhere({mine.name, target});
      var moved := Rename(mine.name, target, RenameClaim in faults.failing);
      if moved { return Ok(target); }
      Withdraw(mine.name, faults.stuck);
      r := Err(AttachError(500));
    }

    // Whatever this unlink meets is swallowed: the claim is left to a later cleanup.
    method Withdraw(claimName: string, stuck: set<string>)
      requires Valid()
      modifies this
      ensures Valid()
      ensures entries == if claimName in stuck then old(entries) else Without(old(entries), {claimName})
    {
      WithoutUnused(entries, {});
      var outcome := Unlink(claimName, stuck);
      if outcome.Missing? { WithoutUnused(entries, {claimName}); }
    }
  }

  function ClaimFor(name: string, stamp: nat, pid: nat): Entry {
    Claim(name, Some(Owner(stamp, pid)))
  }

  function Cleaned(entries: seq<Entry>, pid: nat, now: nat, alive: set<nat>, stuck: set<string>): seq<Entry> {
    var claims := ClaimsOf(entries);
    Without(entries, AbandonedNames(claims[..FirstStuck(claims, pid, now, alive, stuck)], pid, now, alive))
  }

  lemma CleanedOnlyLoses(entries: seq<Entry>, pid: nat, now: nat, alive: set<nat>, stuck: set<string>)
    ensures forall e :: e in Cleaned(entries, pid, now, alive, stuck) ==> e in entries
  {
  }

  // A cleanup with nothing in its way takes this process's own claims, the claims
  // more than 30 seconds old of processes that are gone, and the legacy markers
  // that old that name no living process; it keeps everything else.
  lemma CleanedExactly(entries: seq<Entry>, pid: nat, now: nat, alive: set<nat>)
    requires DistinctNames(entries)
    ensures forall e :: e in Cleaned(entries, pid, now, alive, {}) <==>
              && e in entries
              && (e.Claim? && e.owner.Some? ==>
                    e.owner.value.pid != pid && (now <= e.owner.value.ts + 30_000 || e.owner.value.pid in alive))
              && (e.Legacy? ==> now <= e.mtime + 30_000 || (e.pid.Some? && e.pid.value in alive))
  {
    var claims := ClaimsOf(entries);
    assert claims[..FirstStuck(claims, pid, now, alive, {})] == claims;
    ScanMembers(entries);
    forall e | e in entries ensures e.name in AbandonedNames(claims, pid, now, alive) <==> Abandoned(e, pid, now, alive) {
      if e.name in AbandonedNames(claims, pid, now, alive) {
        var c :| c in claims && Abandoned(c, pid, now, alive) && c.name == e.name;
        assert c in entries;
      }
    }
  }

  // What one undisturbed upload does. Its audit sheds nothing: an elected claim
  // of an undisturbed directory always fits.
  function AloneOutcome(entries: seq<Entry>, pid: nat, now: nat, alive: set<nat>, mine: Entry, target: string, faults: Faults):
    (Result<string, Failure>, seq<Entry>)
  {
    var kept := Cleaned(entries, pid, now, alive, faults.stuck);
    if Harden in faults.failing then (Err(SystemError), entries)
    else if CleanupScan in faults.failing then (Err(AttachError(500)), entries)
    else if exists e :: e in entries && Abandoned(e, pid, now, alive) && e.name in faults.stuck then (Err(AttachError(500)), kept)
    else if WriteClaim in faults.failing then (Err(AttachError(500)), if faults.partly then kept + [mine] else kept)
    else AloneCommit(kept, mine, target, faults)
  }

  function AloneCommit(kept: seq<Entry>, mine: Entry, target: string, faults: Faults): (Result<string, Failure>, seq<Entry>) {
    var admitted := P.Admits(P.MAX_UPLOAD_FILES, ToSet(kept + [mine]), mine);
    if ElectScan in faults.failing || RenameClaim in faults.failing || !admitted
    then (Err(AttachError(Refusal(faults, admitted))), if mine.name in faults.stuck then kept + [mine] else kept)
    else (if AuditScan in faults.failing then Err(AttachError(500)) else Ok(target), kept + [Payload(target)])
  }

  // Only a completed election that is lost is the retryable refusal.
  function Refusal(faults: Faults, admitted: bool): nat {
    if ElectScan !in faults.failing && !admitted then 507 else 500
  }

  // Without faults: the payload is added exactly when the election admits it,
  // and otherwise the cleaned directory is left as it was.
  lemma AloneWithoutFaults(entries: seq<Entry>, pid: nat, now: nat, alive: set<nat>, mine: Entry, target: string)
    ensures var kept := Without(entries, AbandonedNames(ClaimsOf(entries), pid, now, alive));
            AloneOutcome(entries, pid, now, alive, mine, target, Faults({}, {}, false))
            == if P.Admits(P.MAX_UPLOAD_FILES, ToSet(kept + [mine]), mine)
               then (Ok(target), kept + [Payload(target)])
               else (Err(AttachError(507)), kept)
  {
    var claims := ClaimsOf(entries);
    assert claims[..FirstStuck(claims, pid, now, alive, {})] == claims;
  }

  lemma CleanupStarts(entries: seq<Entry>, claims: seq<Entry>, pid: nat, now: nat, alive: set<nat>)
    requires claims == ClaimsOf(entries) && DistinctNames(entries)
    ensures entries == Without(entries, AbandonedNames(claims[..0], pid, now, alive))
    ensures DistinctNames(claims) && forall e :: e in claims ==> e in entries
  {
    assert AbandonedNames(claims[..0], pid, now, alive) == {};
    WithoutUnused(entries, {});
    ScanMembers(entries);
    ScanKeepsDistinct(entries);
  }

  // Cleanup gets through exactly when no abandoned name is stuck.
  lemma StuckDecides(entries: seq<Entry>, pid: nat, now: nat, alive: set<nat>, stuck: set<string>)
    ensures var claims := ClaimsOf(entries);
            FirstStuck(claims, pid, now, alive, stuck) == |claims|
            <==> forall e :: e in entries && Abandoned(e, pid, now, alive) ==> e.name !in stuck
  {
    ScanMembers(entries);
    var claims := ClaimsOf(entries);
    forall e | e in entries && Abandoned(e, pid, now, alive) ensures e in claims {
    }
  }

  // An abandoned claim that cleanup cannot unlink is where it stops; any other
  // it has passed.
  lemma StopIsFirst(claims: seq<Entry>, i: nat, pid: nat, now: nat, alive: set<nat>, stuck: set<string>)
    requires i < |claims| && i <= FirstStuck(claims, pid, now, alive, stuck)
    ensures i < FirstStuck(claims, pid, now, alive, stuck) <==> !(Abandoned(claims[i], pid, now, alive) && claims[i].name in stuck)
  {
    hide Abandoned;
  }

  // A claim not yet cleaned is still there to be unlinked.
  lemma StillListed(entries: seq<Entry>, claims: seq<Entry>, i: nat, pid: nat, now: nat, alive: set<nat>)
    requires i < |claims| && DistinctNames(claims) && claims[i] in entries
    ensures claims[i] in Without(entries, AbandonedNames(claims[..i], pid, now, alive))
  {
  }

  lemma OneMoreAbandoned(entries: seq<Entry>, claims: seq<Entry>, i: nat, pid: nat, now: nat, alive: set<nat>)
    requires i < |claims|
    ensures var before := AbandonedNames(claims[..i], pid, now, alive);
            var after := AbandonedNames(claims[..i + 1], pid, now, alive);
            if Abandoned(claims[i], pid, now, alive)
            then Without(Without(entries, before), {claims[i].name}) == Without(entries, after)
            else before == after
  {
    var before := AbandonedNames(claims[..i], pid, now, alive);
    var after := AbandonedNames(claims[..i + 1], pid, now, alive);
    assert claims[..i + 1] == claims[..i] + [claims[i]];
    if Abandoned(claims[i], pid, now, alive) {
      assert after == before + {claims[i].name};
      WithoutTwice(entries, before, {claims[i].name});
    } else {
      assert after == before;
    }
  }

  lemma UndoClaim(kept: seq<Entry>, mine: Entry)
    requires forall e :: e in kept ==> e.name != mine.name
    ensures Without(kept + [mine], {mine.name}) == kept
  {
    WithoutConcat(kept, [mine], {mine.name});
    WithoutUnused(kept, {mine.name});
  }

  lemma ReplaceClaim(kept: seq<Entry>, mine: Entry, target: string)
    requires forall e :: e in kept ==> e.name != mine.name
    ensures Without(kept + [mine], {mine.name}) + [Payload(target)] == kept + [Payload(target)]
  {
    UndoClaim(kept, mine);
  }

  // An admitted claim's payload still fits under the cap once it is renamed.
  lemma AdmittedFits(kept: seq<Entry>, mine: Entry, target: string)
    requires IsClaim(mine)
    ensures P.Admits(P.MAX_UPLOAD_FILES, ToSet(kept + [mine]), mine) ==>
              |P.Payloads(ToSet(kept + [Payload(target)]))| <= P.MAX_UPLOAD_FILES
  {
    assert P.Payloads(ToSet(kept + [mine])) == P.Payloads(ToSet(kept));
    assert P.Payloads(ToSet(kept + [Payload(target)])) == P.Payloads(ToSet(kept)) + {Payload(target)};
  }

  // The source's three tests (free slots, rank found, rank below the free
  // slots) are the protocol's election on the set of entries scanned.
  lemma ElectionMatchesProtocol(entries: seq<Entry>, mine: Entry)
    requires DistinctNames(entries) && IsClaim(mine)
    requires forall e :: e in entries && e.name == mine.name ==> e == mine
    ensures var free := P.MAX_UPLOAD_FILES - |PayloadsOf(entries)|;
            var rank := IndexOfName(RankUploadClaims(ClaimsOf(entries)), mine.name);
            !(free <= 0 || rank < 0 || rank >= free) <==> P.Admits(P.MAX_UPLOAD_FILES, ToSet(entries), mine)
  {
    ScanIsExact(entries);
    RankIsOrderIndependent(ClaimsOf(entries), mine);
    assert mine in ClaimsOf(entries) <==> mine in ToSet(ClaimsOf(entries));
  }
}
