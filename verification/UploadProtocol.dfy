// Upload quota admission between processes that share one uploads directory
// (src/attachments/resolver.ts): each writer publishes a claim, scans, elects
// itself by FIFO rank, renames the claim onto its final name, then audits.
// Every file-system call is one atomic step; any process can die between two. A
// writer whose withdrawal or audit fails is `Die` followed by `Join`.
module UploadProtocol {
  import opened Outcomes
  import opened UploadClaims

  const MAX_UPLOAD_FILES: nat := 1_000

  datatype Phase =
    | Idle
    | Claimed(claim: Entry)      // claim written, not yet scanned
    | Elected(claim: Entry)      // won the election, rename pending
    | Refused(claim: Entry)      // lost it, or the rename failed: unlink pending
    | Committed(target: string)  // renamed, audit pending
    | Shedding(target: string)   // audit over the cap: unlink pending

  // `procs` holds the live processes; `unaudited` the payload names whose
  // writer has not finished its audit, including writers that died first.
  datatype State = State(entries: set<Entry>, procs: map<nat, Phase>, unaudited: set<string>)

  datatype Step =
    | Join(pid: nat)
    | Die(pid: nat)
    | WriteClaim(pid: nat, claim: Entry)
    | Elect(pid: nat, seen: set<Entry>)     // `seen`: what the directory scan returned
    | Commit(pid: nat, target: string)
    | Withdraw(pid: nat)
    | Audit(pid: nat)
    | Shed(pid: nat)
    | Reclaim(pid: nat, victim: Entry, now: nat)
    | Prune(payload: string)                // an operator removes a payload

  function Payloads(entries: set<Entry>): set<Entry> {
    set e | e in entries && e.Payload?
  }

  function Claims(entries: set<Entry>): set<Entry> {
    set e | e in entries && IsClaim(e)
  }

  // The election a writer computes from the entries its scan returned.
  predicate Admits(cap: nat, seen: set<Entry>, claim: Entry) {
    var free := cap as int - |Payloads(seen)|;
    free > 0 && claim in Claims(seen) && |Ahead(Claims(seen), claim)| < free
  }

  predicate Live(s: State, pid: nat) {
    pid in s.procs
  }

  predicate NameFree(s: State, name: string) {
    forall e :: e in s.entries ==> e.name != name
  }

  predicate Enabled(s: State, step: Step) {
    match step
    case Join(pid) => !Live(s, pid)
    case Die(pid) => Live(s, pid)
    case WriteClaim(pid, c) =>
      Live(s, pid) && s.procs[pid].Idle? && NameFree(s, c.name)
      && c.Claim? && c.owner.Some? && c.owner.value.pid == pid
    case Elect(pid, _) => Live(s, pid) && s.procs[pid].Claimed?
    case Commit(pid, target) =>
      Live(s, pid) && s.procs[pid].Elected? && NameFree(s, target) && target !in s.unaudited
    case Withdraw(pid) => Live(s, pid) && s.procs[pid].Refused?
    case Audit(pid) => Live(s, pid) && s.procs[pid].Committed?
    case Shed(pid) => Live(s, pid) && s.procs[pid].Shedding?
    case Reclaim(pid, e, now) =>
      Live(s, pid) && s.procs[pid].Idle? && e in s.entries && Abandoned(e, pid, now, s.procs.Keys)
    case Prune(name) => Payload(name) in s.entries
  }

  function Apply(cap: nat, s: State, step: Step): State
    requires Enabled(s, step)
  {
    match step
    case Join(pid) => s.(procs := s.procs[pid := Idle])
    case Die(pid) => s.(procs := s.procs - {pid})
    case WriteClaim(pid, c) => s.(entries := s.entries + {c}, procs := s.procs[pid := Claimed(c)])
    case Elect(pid, seen) =>
      var c := s.procs[pid].claim;
      s.(procs := s.procs[pid := if Admits(cap, seen, c) then Elected(c) else Refused(c)])
    case Commit(pid, target) =>
      var c := s.procs[pid].claim;
      if c in s.entries then
        State(s.entries - {c} + {Payload(target)}, s.procs[pid := Committed(target)], s.unaudited + {target})
      else
        s.(procs := s.procs[pid := Refused(c)])
    case Withdraw(pid) =>
      s.(entries := s.entries - {s.procs[pid].claim}, procs := s.procs[pid := Idle])
    case Audit(pid) =>
      var target := s.procs[pid].target;
      if |Payloads(s.entries)| > cap then s.(procs := s.procs[pid := Shedding(target)])
      else s.(procs := s.procs[pid := Idle], unaudited := s.unaudited - {target})
    case Shed(pid) =>
      var target := s.procs[pid].target;
      State(s.entries - {Payload(target)}, s.procs[pid := Idle], s.unaudited - {target})
    case Reclaim(_, e, _) => s.(entries := s.entries - {e})
    case Prune(name) => s.(entries := s.entries - {Payload(name)})
  }

  // ---- Runs ----------------------------------------------------------------

  predicate Legal(cap: nat, s: State, steps: seq<Step>)
    decreases steps, 0
  {
    |steps| == 0
    || var last := |steps| - 1;
       Legal(cap, s, steps[..last]) && Enabled(After(cap, s, steps[..last]), steps[last])
  }

  function After(cap: nat, s: State, steps: seq<Step>): State
    requires Legal(cap, s, steps)
    decreases steps, 1
  {
    if |steps| == 0 then s
    else var last := |steps| - 1;
         Apply(cap, After(cap, s, steps[..last]), steps[last])
  }

  lemma Extend(cap: nat, s: State, steps: seq<Step>, k: nat)
    requires k < |steps| && Legal(cap, s, steps[..k]) && Enabled(After(cap, s, steps[..k]), steps[k])
    ensures Legal(cap, s, steps[..k + 1])
    ensures After(cap, s, steps[..k + 1]) == Apply(cap, After(cap, s, steps[..k]), steps[k])
  {
    assert steps[..k + 1][..k] == steps[..k];
  }

  // A directory nobody is uploading to.
  ghost predicate Initial(cap: nat, s: State) {
    && s.procs == map[] && s.unaudited == {}
    && UniqueNames(s.entries) && |Payloads(s.entries)| <= cap
  }

  // ---- What every step keeps -------------------------------------------------

  ghost predicate HoldsClaim(p: Phase) {
    p.Claimed? || p.Elected? || p.Refused?
  }

  ghost predicate Audits(p: Phase) {
    p.Committed? || p.Shedding?
  }

  // Claims are owned by exactly the process in flight with them, and are never
  // removed under a live writer that still needs them.
  ghost predicate ClaimsOwned(s: State) {
    && (forall pid :: Live(s, pid) && HoldsClaim(s.procs[pid]) ==>
          var c := s.procs[pid].claim; c.Claim? && c.owner.Some? && c.owner.value.pid == pid)
    && (forall pid :: Live(s, pid) && (s.procs[pid].Claimed? || s.procs[pid].Elected?) ==>
          s.procs[pid].claim in s.entries)
  }

  // Every pending audit is of a target of its own.
  ghost predicate AuditsApart(s: State) {
    && (forall pid :: Live(s, pid) && Audits(s.procs[pid]) ==> s.procs[pid].target in s.unaudited)
    && (forall p, q :: Live(s, p) && Live(s, q) && p != q && Audits(s.procs[p]) && Audits(s.procs[q]) ==>
          s.procs[p].target != s.procs[q].target)
  }

  ghost predicate Sane(s: State) {
    UniqueNames(s.entries) && ClaimsOwned(s) && AuditsApart(s)
  }

  lemma StepKeepsNames(cap: nat, s: State, step: Step)
    requires UniqueNames(s.entries) && Enabled(s, step)
    ensures UniqueNames(Apply(cap, s, step).entries)
  {
  }

  lemma StepKeepsClaims(cap: nat, s: State, step: Step)
    requires UniqueNames(s.entries) && ClaimsOwned(s) && Enabled(s, step)
    ensures ClaimsOwned(Apply(cap, s, step))
  {
  }

  lemma StepKeepsAuditsApart(cap: nat, s: State, step: Step)
    requires AuditsApart(s) && Enabled(s, step)
    ensures AuditsApart(Apply(cap, s, step))
  {
    hide Abandoned, Admits, Payloads, UniqueNames;
  }

  lemma StepKeepsSane(cap: nat, s: State, step: Step)
    requires Sane(s) && Enabled(s, step)
    ensures Sane(Apply(cap, s, step))
  {
    hide UniqueNames, ClaimsOwned, AuditsApart, Enabled, Apply;
    StepKeepsNames(cap, s, step);
    StepKeepsClaims(cap, s, step);
    StepKeepsAuditsApart(cap, s, step);
  }

  // ---- The audit backstop -----------------------------------------------------

  ghost predicate Unaudited(s: State, e: Entry) {
    e.name in s.unaudited
  }

  ghost function AuditedPayloads(s: State): set<Entry> {
    set e | e in Payloads(s.entries) && !Unaudited(s, e)
  }

  ghost predicate AuditHolds(cap: nat, s: State) {
    |AuditedPayloads(s)| <= cap
  }

  lemma SubsetCard<T>(a: set<T>, b: set<T>)
    requires a <= b
    ensures |a| <= |b|
  {
    var rest := b - a;
    assert b == a + rest;
  }

  lemma StepKeepsAudit(cap: nat, s: State, step: Step)
    requires Sane(s) && Enabled(s, step) && AuditHolds(cap, s)
    ensures AuditHolds(cap, Apply(cap, s, step))
  {
    var s' := Apply(cap, s, step);
    if step.Audit? && |Payloads(s.entries)| <= cap {
      SubsetCard(AuditedPayloads(s'), Payloads(s'.entries));
    } else {
      SubsetCard(AuditedPayloads(s'), AuditedPayloads(s));
    }
  }

  // Whatever the claim order, the scans behind the elections and the
  // interleaving: payloads whose audit is over never exceed the cap, so a
  // directory with no audit pending is never overbooked.
  lemma {:induction false} AuditBackstop(cap: nat, s: State, steps: seq<Step>)
    requires Initial(cap, s) && Legal(cap, s, steps)
    ensures Sane(After(cap, s, steps))
    ensures |AuditedPayloads(After(cap, s, steps))| <= cap
    ensures After(cap, s, steps).unaudited == {} ==> |Payloads(After(cap, s, steps).entries)| <= cap
  {
    if |steps| == 0 {
      SubsetCard(AuditedPayloads(s), Payloads(s.entries));
    } else {
      var last := |steps| - 1;
      AuditBackstop(cap, s, steps[..last]);
      var mid := After(cap, s, steps[..last]);
      StepKeepsSane(cap, mid, steps[last]);
      StepKeepsAudit(cap, mid, steps[last]);
    }
    var t := After(cap, s, steps);
    if t.unaudited == {} {
      assert AuditedPayloads(t) == Payloads(t.entries);
    }
  }

  // A claim leaves the directory only through its own writer, or after that
  // writer is gone: cleanup never takes a claim a live writer still needs.
  lemma ReclaimSparesLiveWriters(cap: nat, s: State, steps: seq<Step>, pid: nat, victim: Entry, now: nat, writer: nat)
    requires Initial(cap, s) && Legal(cap, s, steps)
    requires Enabled(After(cap, s, steps), Reclaim(pid, victim, now))
    requires Live(After(cap, s, steps), writer) && HoldsClaim(After(cap, s, steps).procs[writer])
    ensures After(cap, s, steps).procs[writer].claim != victim
  {
    AuditBackstop(cap, s, steps);
  }

  // ---- The ordered election ---------------------------------------------------

  // The claims ranked at or before `c`.
  function UpTo(entries: set<Entry>, c: Entry): set<Entry> {
    Ahead(Claims(entries), c) + {c}
  }

  ghost predicate ElectionHolds(cap: nat, s: State) {
    && |Payloads(s.entries)| <= cap
    && (forall pid :: Live(s, pid) ==> !s.procs[pid].Shedding?)
    && (forall pid :: Live(s, pid) && s.procs[pid].Elected? ==>
          |UpTo(s.entries, s.procs[pid].claim)| + |Payloads(s.entries)| <= cap)
  }

  // Claims created in rank order: a new claim ranks after every elected one.
  // Scans are exact: an election reads the directory as it is.
  ghost predicate Ordered(s: State, step: Step) {
    && (step.WriteClaim? ==> forall pid :: Live(s, pid) && s.procs[pid].Elected? ==>
          Before(s.procs[pid].claim, step.claim))
    && (step.Elect? ==> step.seen == s.entries)
  }

  ghost predicate OrderedRun(cap: nat, s: State, steps: seq<Step>)
    requires Legal(cap, s, steps)
  {
    |steps| == 0
    || var last := |steps| - 1;
       OrderedRun(cap, s, steps[..last]) && Ordered(After(cap, s, steps[..last]), steps[last])
  }

  // A rename trades a claim for a payload; every other elected claim keeps its
  // slack, whichever of the two ranks first.
  lemma RenameKeepsSlack(cap: nat, entries: set<Entry>, c: Entry, d: Entry, p: Entry)
    requires p.Payload? && p !in entries
    requires c in Claims(entries) && d in Claims(entries) && c.name != d.name
    requires |UpTo(entries, c)| + |Payloads(entries)| <= cap
    requires |UpTo(entries, d)| + |Payloads(entries)| <= cap
    ensures var after := entries - {c} + {p};
            |UpTo(after, d)| + |Payloads(after)| <= cap
  {
    hide Before;
    var after := entries - {c} + {p};
    assert Payloads(after) == Payloads(entries) + {p};
    RenameLeavesClaims(entries, c, d, p);
    if Before(c, d) {
      assert c in UpTo(entries, d);
    } else {
      SubsetCard(UpTo(after, d), UpTo(entries, d));
      BeforeIsStrictOrder(c, d, c);
      RankedEarlierHasFewer(entries, d, c);
    }
  }

  lemma RenameLeavesClaims(entries: set<Entry>, c: Entry, d: Entry, p: Entry)
    requires p.Payload? && c in Claims(entries) && d in Claims(entries) && c.name != d.name
    ensures UpTo(entries - {c} + {p}, d) == UpTo(entries, d) - {c}
  {
    assert Claims(entries - {c} + {p}) == Claims(entries) - {c};
  }

  lemma RankedEarlierHasFewer(entries: set<Entry>, d: Entry, c: Entry)
    requires d in Claims(entries) && Before(d, c)
    ensures |UpTo(entries, d)| < |UpTo(entries, c)|
  {
    BeforeIsStrictOrder(d, c, d);
    BeforeIsStrictOrder(c, c, c);
    forall x | x in UpTo(entries, d) ensures x in UpTo(entries, c) - {c} {
      BeforeIsStrictOrder(x, d, c);
    }
    SubsetCard(UpTo(entries, d), UpTo(entries, c) - {c});
  }

  lemma CommitKeepsElection(cap: nat, s: State, pid: nat, target: string)
    requires Sane(s) && ElectionHolds(cap, s) && Enabled(s, Commit(pid, target))
    ensures ElectionHolds(cap, Apply(cap, s, Commit(pid, target)))
  {
    var s' := Apply(cap, s, Commit(pid, target));
    var c := s.procs[pid].claim;
    assert Payloads(s'.entries) == Payloads(s.entries) + {Payload(target)};
    SubsetCard({c}, UpTo(s.entries, c));
    assert c.owner.value.pid == pid;
    forall other | Live(s', other) && s'.procs[other].Elected?
      ensures |UpTo(s'.entries, s'.procs[other].claim)| + |Payloads(s'.entries)| <= cap
    {
      assert s.procs[other].claim.owner.value.pid == other;
      RenameKeepsSlack(cap, s.entries, c, s.procs[other].claim, Payload(target));
    }
  }

  lemma ElectKeepsElection(cap: nat, s: State, pid: nat)
    requires Sane(s) && ElectionHolds(cap, s) && Enabled(s, Elect(pid, s.entries))
    ensures ElectionHolds(cap, Apply(cap, s, Elect(pid, s.entries)))
  {
    var c := s.procs[pid].claim;
    BeforeIsStrictOrder(c, c, c);
    assert c !in Ahead(Claims(s.entries), c);
  }

  lemma NewClaimCount(entries: set<Entry>, c: Entry, d: Entry)
    requires IsClaim(c) && c !in entries && d in Claims(entries)
    ensures Payloads(entries + {c}) == Payloads(entries)
    ensures |UpTo(entries + {c}, d)| == |UpTo(entries, d)| + (if Before(c, d) then 1 else 0)
  {
    hide Before;
    var was, now := UpTo(entries, d), UpTo(entries + {c}, d);
    assert c !in was;
    if Before(c, d) {
      assert now == was + {c};
    } else {
      assert now == was;
    }
  }

  // Exactly when a new claim keeps the election invariant: no elected claim
  // ranked after it is already using the whole cap.
  lemma ClaimKeepsElection(cap: nat, s: State, pid: nat, c: Entry)
    requires Sane(s) && ElectionHolds(cap, s) && Enabled(s, WriteClaim(pid, c))
    ensures ElectionHolds(cap, Apply(cap, s, WriteClaim(pid, c))) <==>
            forall w :: Live(s, w) && s.procs[w].Elected? && Before(c, s.procs[w].claim) ==>
              |UpTo(s.entries, s.procs[w].claim)| + |Payloads(s.entries)| < cap
  {
    var s' := Apply(cap, s, WriteClaim(pid, c));
    assert Payloads(s'.entries) == Payloads(s.entries);
    forall w | Live(s, w) && s.procs[w].Elected?
      ensures Live(s', w) && s'.procs[w] == s.procs[w]
      ensures |UpTo(s'.entries, s.procs[w].claim)| + |Payloads(s'.entries)| <= cap <==>
              (Before(c, s.procs[w].claim) ==>
                 |UpTo(s.entries, s.procs[w].claim)| + |Payloads(s.entries)| < cap)
    {
      NewClaimCount(s.entries, c, s.procs[w].claim);
    }
  }

  lemma RemovalKeepsElection(cap: nat, s: State, step: Step)
    requires Sane(s) && ElectionHolds(cap, s) && Enabled(s, step)
    requires step.Withdraw? || step.Reclaim? || step.Prune? || step.Die? || step.Join?
    ensures ElectionHolds(cap, Apply(cap, s, step))
  {
    var s' := Apply(cap, s, step);
    SubsetCard(Payloads(s'.entries), Payloads(s.entries));
    forall pid | Live(s', pid) && s'.procs[pid].Elected?
      ensures |UpTo(s'.entries, s'.procs[pid].claim)| + |Payloads(s'.entries)| <= cap
    {
      SubsetCard(UpTo(s'.entries, s.procs[pid].claim), UpTo(s.entries, s.procs[pid].claim));
    }
  }

  lemma StepKeepsElection(cap: nat, s: State, step: Step)
    requires Sane(s) && ElectionHolds(cap, s) && Enabled(s, step) && Ordered(s, step)
    ensures ElectionHolds(cap, Apply(cap, s, step))
  {
    match step
    case Commit(pid, target) => CommitKeepsElection(cap, s, pid, target);
    case Elect(pid, seen) => ElectKeepsElection(cap, s, pid);
    case WriteClaim(pid, c) =>
      forall w | Live(s, w) && s.procs[w].Elected? ensures !Before(c, s.procs[w].claim) {
        BeforeIsStrictOrder(s.procs[w].claim, c, c);
      }
      ClaimKeepsElection(cap, s, pid, c);
    case Audit(pid) =>
    case Shed(pid) =>
    case _ => RemovalKeepsElection(cap, s, step);
  }

  // With claims created in rank order the election alone keeps the cap, in
  // every state of every run: no audit ever sheds a payload.
  lemma {:induction false} OrderedElectionNeverOverbooks(cap: nat, s: State, steps: seq<Step>)
    requires Initial(cap, s) && Legal(cap, s, steps) && OrderedRun(cap, s, steps)
    ensures Sane(After(cap, s, steps)) && ElectionHolds(cap, After(cap, s, steps))
  {
    if |steps| > 0 {
      var last := |steps| - 1;
      OrderedElectionNeverOverbooks(cap, s, steps[..last]);
      var mid := After(cap, s, steps[..last]);
      StepKeepsSane(cap, mid, steps[last]);
      StepKeepsElection(cap, mid, steps[last]);
    }
  }

  // ---- How many writers one snapshot admits -----------------------------------

  function Admitted(cap: nat, seen: set<Entry>): set<Entry> {
    set c | c in Claims(seen) && Admits(cap, seen, c)
  }

  // The claim with the highest rank of a nonempty set.
  lemma {:induction false} LastClaim(claims: set<Entry>) returns (last: Entry)
    requires claims != {} && UniqueNames(claims)
    ensures last in claims
    ensures forall c :: c in claims && c != last ==> Before(c, last)
    decreases claims
  {
    var c :| c in claims;
    if claims == {c} {
      last := c;
    } else {
      var rest := LastClaim(claims - {c});
      BeforeIsStrictOrder(rest, c, rest);
      last := if Before(rest, c) then c else rest;
      forall d | d in claims && d != last ensures Before(d, last) {
        BeforeIsStrictOrder(d, rest, c);
        BeforeIsStrictOrder(c, rest, c);
      }
    }
  }

  lemma {:induction false} FirstRanks(claims: set<Entry>, k: nat)
    requires UniqueNames(claims) && k <= |claims|
    ensures |set c | c in claims && |Ahead(claims, c)| < k| == k
    decreases claims
  {
    if claims == {} {
      assert (set c | c in claims && |Ahead(claims, c)| < k) == {};
    } else {
      var last := LastClaim(claims);
      BeforeIsStrictOrder(last, last, last);
      assert Ahead(claims, last) == claims - {last};
      forall c | c in claims && c != last ensures Ahead(claims, c) == Ahead(claims - {last}, c) {
        BeforeIsStrictOrder(c, last, c);
      }
      var winners := set c | c in claims && |Ahead(claims, c)| < k;
      if k == |claims| {
        forall c | c in claims ensures |Ahead(claims, c)| < k {
          BeforeIsStrictOrder(c, c, c);
          SubsetCard(Ahead(claims, c), claims - {c});
        }
        assert winners == claims;
      } else {
        FirstRanks(claims - {last}, k);
        assert winners == set c | c in claims - {last} && |Ahead(claims - {last}, c)| < k;
      }
    }
  }

  // One snapshot admits exactly as many writers as there are free slots, or all
  // of them when there are fewer: two racers at the last slot make one winner.
  lemma SnapshotFillsFreeSlots(cap: nat, seen: set<Entry>)
    requires UniqueNames(seen)
    ensures var free := cap as int - |Payloads(seen)|;
            |Admitted(cap, seen)| == if free <= 0 then 0 else if free < |Claims(seen)| then free else |Claims(seen)|
  {
    var free := cap as int - |Payloads(seen)|;
    var claims := Claims(seen);
    if free <= 0 {
      assert Admitted(cap, seen) == {};
    } else {
      var k := if free < |claims| then free else |claims|;
      FirstRanks(claims, k);
      forall c | c in claims ensures |Ahead(claims, c)| < |claims| {
        BeforeIsStrictOrder(c, c, c);
        SubsetCard(Ahead(claims, c), claims - {c});
      }
      assert Admitted(cap, seen) == set c | c in claims && |Ahead(claims, c)| < k;
    }
  }

  // ---- Why the audit is needed ------------------------------------------------

  function ClaimOf(ts: nat, pid: nat, name: string): Entry {
    Claim(name, Some(Owner(ts, pid)))
  }

  const LATE: Entry := ClaimOf(2, 1, "b")
  const EARLY: Entry := ClaimOf(1, 2, "a")
  const EMPTY: State := State({}, map[], {})

  // Two writers whose claims appear out of rank order both win a cap of one:
  // the later stamp is elected first, then the earlier stamp ranks ahead of it.
  function OutOfOrderRun(): seq<Step> {
    [Join(1), Join(2),
     WriteClaim(1, LATE), Elect(1, {LATE}),
     WriteClaim(2, EARLY), Elect(2, {LATE, EARLY}),
     Commit(1, "p"), Commit(2, "q")]
  }

  lemma LateClaims()
    ensures Legal(1, EMPTY, OutOfOrderRun()[..3])
    ensures After(1, EMPTY, OutOfOrderRun()[..3]) == State({LATE}, map[1 := Claimed(LATE), 2 := Idle], {})
  {
    var run := OutOfOrderRun();
    Extend(1, EMPTY, run, 0);
    Extend(1, EMPTY, run, 1);
    Extend(1, EMPTY, run, 2);
  }

  lemma LateIsElected()
    ensures Legal(1, EMPTY, OutOfOrderRun()[..4])
    ensures After(1, EMPTY, OutOfOrderRun()[..4]) == State({LATE}, map[1 := Elected(LATE), 2 := Idle], {})
  {
    LateClaims();
    assert Payloads({LATE}) == {} && Ahead(Claims({LATE}), LATE) == {};
    Extend(1, EMPTY, OutOfOrderRun(), 3);
  }

  lemma EarlyIsElectedToo()
    ensures Legal(1, EMPTY, OutOfOrderRun()[..6])
    ensures After(1, EMPTY, OutOfOrderRun()[..6])
            == State({LATE, EARLY}, map[1 := Elected(LATE), 2 := Elected(EARLY)], {})
  {
    var run := OutOfOrderRun();
    LateIsElected();
    Extend(1, EMPTY, run, 4);
    assert Payloads({LATE, EARLY}) == {} && Ahead(Claims({LATE, EARLY}), EARLY) == {};
    Extend(1, EMPTY, run, 5);
  }

  lemma FirstCommits()
    ensures Legal(1, EMPTY, OutOfOrderRun()[..7])
    ensures After(1, EMPTY, OutOfOrderRun()[..7])
            == State({EARLY, Payload("p")}, map[1 := Committed("p"), 2 := Elected(EARLY)], {"p"})
  {
    EarlyIsElectedToo();
    Extend(1, EMPTY, OutOfOrderRun(), 6);
  }

  lemma BothCommit()
    ensures Legal(1, EMPTY, OutOfOrderRun())
    ensures After(1, EMPTY, OutOfOrderRun())
            == State({Payload("p"), Payload("q")}, map[1 := Committed("p"), 2 := Committed("q")], {"p", "q"})
  {
    var run := OutOfOrderRun();
    FirstCommits();
    Extend(1, EMPTY, run, 7);
    assert run[..8] == run;
  }

  lemma ElectionAloneCanOverbook()
    ensures Initial(1, EMPTY) && Legal(1, EMPTY, OutOfOrderRun())
    ensures |Payloads(After(1, EMPTY, OutOfOrderRun()).entries)| == 2
  {
    BothCommit();
    assert Payloads({}) == {};
    assert Payloads({Payload("p"), Payload("q")}) == {Payload("p"), Payload("q")};
  }
}
