// What writers that die between their rename and the end of their audit leave
// behind (src/attachments/resolver.ts): the audit holds the cap for every writer
// that lives through it, and for those only.
module UploadCrashes {
  import opened Outcomes
  import opened UploadClaims
  import opened UploadProtocol

  // The payload names whose live writer has its audit before it.
  ghost function Pending(s: State): set<string> {
    set pid | pid in s.procs && Audits(s.procs[pid]) :: s.procs[pid].target
  }

  ghost function Auditors(s: State): set<nat> {
    set pid | pid in s.procs && Audits(s.procs[pid])
  }

  // The payload names whose writer died with its audit before it.
  ghost function Lost(cap: nat, s: State, steps: seq<Step>): set<string>
    requires Legal(cap, s, steps)
  {
    if |steps| == 0 then {}
    else
      var last := |steps| - 1;
      Lost(cap, s, steps[..last]) + LostBy(After(cap, s, steps[..last]), steps[last])
  }

  ghost function LostBy(s: State, step: Step): set<string>
    requires Enabled(s, step)
  {
    if step.Die? && Audits(s.procs[step.pid]) then {s.procs[step.pid].target} else {}
  }

  lemma StepAccounts(cap: nat, s: State, step: Step)
    requires AuditsApart(s) && Enabled(s, step)
    ensures Apply(cap, s, step).unaudited <= s.unaudited + Pending(Apply(cap, s, step))
    ensures Pending(s) <= Pending(Apply(cap, s, step)) + LostBy(s, step) + (s.unaudited - Apply(cap, s, step).unaudited)
  {
    hide Abandoned, Admits, Payloads;
    var t := Apply(cap, s, step);
    forall target | target in t.unaudited ensures target in s.unaudited || target in Pending(t) {
      if step.Commit? && target !in s.unaudited { assert t.procs[step.pid].target == target; }
    }
    forall target | target in Pending(s)
      ensures target in Pending(t) || target in LostBy(s, step) || target in s.unaudited - t.unaudited
    {
      var pid :| pid in s.procs && Audits(s.procs[pid]) && s.procs[pid].target == target;
      StepAccountsFor(cap, s, step, pid);
    }
  }

  lemma StepAccountsFor(cap: nat, s: State, step: Step, pid: nat)
    requires AuditsApart(s) && Enabled(s, step) && pid in s.procs && Audits(s.procs[pid])
    ensures var t := Apply(cap, s, step);
            || (pid in t.procs && Audits(t.procs[pid]) && t.procs[pid].target == s.procs[pid].target)
            || s.procs[pid].target in LostBy(s, step)
            || s.procs[pid].target in s.unaudited - t.unaudited
  {
    hide Abandoned, Admits, Payloads;
  }

  // Every name without an audit belongs to a live writer that owes it or to one
  // that died owing it.
  lemma {:induction false} UnauditedIsAccounted(cap: nat, s: State, steps: seq<Step>)
    requires Initial(cap, s) && Legal(cap, s, steps)
    ensures After(cap, s, steps).unaudited <= Pending(After(cap, s, steps)) + Lost(cap, s, steps)
  {
    if |steps| > 0 {
      hide Apply, Enabled, Pending, LostBy;
      var last := |steps| - 1;
      UnauditedIsAccounted(cap, s, steps[..last]);
      AuditBackstop(cap, s, steps[..last]);
      StepAccounts(cap, After(cap, s, steps[..last]), steps[last]);
    }
  }

  lemma {:induction false} PayloadsByName(payloads: set<Entry>, names: set<string>)
    requires forall e :: e in payloads ==> e.Payload? && e.name in names
    ensures |payloads| <= |names|
    decreases payloads
  {
    if payloads != {} {
      var e :| e in payloads;
      PayloadsByName(payloads - {e}, names - {e.name});
    }
  }

  lemma {:induction false} PendingByPid(s: State, pids: set<nat>, names: set<string>)
    requires pids <= s.procs.Keys && forall pid :: pid in pids ==> Audits(s.procs[pid])
    requires forall name :: name in names ==> exists pid :: pid in pids && Audits(s.procs[pid]) && s.procs[pid].target == name
    ensures |names| <= |pids|
    decreases pids
  {
    if pids != {} {
      var pid :| pid in pids;
      PendingByPid(s, pids - {pid}, names - {s.procs[pid].target});
      if s.procs[pid].target in names {
        assert names == (names - {s.procs[pid].target}) + {s.procs[pid].target};
      } else {
        assert names - {s.procs[pid].target} == names;
      }
    } else {
      assert names == {};
    }
  }

  // In every run, whatever the claim order and the scans: payloads exceed the cap
  // by no more than the writers that have yet to audit and the writers that died
  // before they did.
  lemma DeadWritersBoundTheOverbook(cap: nat, s: State, steps: seq<Step>)
    requires Initial(cap, s) && Legal(cap, s, steps)
    ensures var t := After(cap, s, steps);
            |Payloads(t.entries)| <= cap + |Auditors(t)| + |Lost(cap, s, steps)|
  {
    hide Apply, Enabled, Legal, After, Lost;
    var t := After(cap, s, steps);
    AuditBackstop(cap, s, steps);
    UnauditedIsAccounted(cap, s, steps);
    var unaudited := Payloads(t.entries) - AuditedPayloads(t);
    PayloadsByName(unaudited, Pending(t) + Lost(cap, s, steps));
    PendingByPid(t, Auditors(t), Pending(t));
    assert Payloads(t.entries) == AuditedPayloads(t) + unaudited;
  }

  // No process dies between its rename and the end of its audit.
  predicate NobodyDiesUnaudited(cap: nat, s: State, steps: seq<Step>)
    requires Legal(cap, s, steps)
  {
    |steps| == 0
    || var last := |steps| - 1;
       && NobodyDiesUnaudited(cap, s, steps[..last])
       && (steps[last].Die? ==>
             !After(cap, s, steps[..last]).procs[steps[last].pid].Committed?
             && !After(cap, s, steps[..last]).procs[steps[last].pid].Shedding?)
  }

  lemma {:induction false} NothingLost(cap: nat, s: State, steps: seq<Step>)
    requires Legal(cap, s, steps) && NobodyDiesUnaudited(cap, s, steps)
    ensures Lost(cap, s, steps) == {}
  {
    if |steps| > 0 { NothingLost(cap, s, steps[..|steps| - 1]); }
  }

  // Where nobody dies unaudited, the cap holds whenever nobody is auditing.
  lemma CapHoldsWithoutLostAudits(cap: nat, s: State, steps: seq<Step>)
    requires Initial(cap, s) && Legal(cap, s, steps) && NobodyDiesUnaudited(cap, s, steps)
    requires forall pid :: pid in After(cap, s, steps).procs ==> !Audits(After(cap, s, steps).procs[pid])
    ensures |Payloads(After(cap, s, steps).entries)| <= cap
  {
    hide Apply, Enabled, Legal, After, Lost;
    NothingLost(cap, s, steps);
    DeadWritersBoundTheOverbook(cap, s, steps);
    assert Auditors(After(cap, s, steps)) == {};
  }

  // ---- Why nobody may ------------------------------------------------------------

  // Both racers of the out-of-order run die before their audits.
  function BothDieRun(): seq<Step> {
    OutOfOrderRun() + [Die(1), Die(2)]
  }

  lemma BothDie()
    ensures Legal(1, EMPTY, BothDieRun())
    ensures After(1, EMPTY, BothDieRun()) == State({Payload("p"), Payload("q")}, map[], {"p", "q"})
  {
    var run := BothDieRun();
    BothCommit();
    assert run[..8] == OutOfOrderRun();
    Extend(1, EMPTY, run, 8);
    Extend(1, EMPTY, run, 9);
    assert run[..10] == run;
  }

  // Nobody is left to audit, and the directory is over its cap for good.
  lemma CrashBeforeAuditOverbooks()
    ensures Initial(1, EMPTY) && Legal(1, EMPTY, BothDieRun()) && After(1, EMPTY, BothDieRun()).procs == map[]
    ensures |Payloads(After(1, EMPTY, BothDieRun()).entries)| == 2
  {
    BothDie();
    ElectionAloneCanOverbook();
    assert Payloads({Payload("p"), Payload("q")}) == {Payload("p"), Payload("q")};
  }

  // ---- The bound is attained ----------------------------------------------------

  function Unary(i: nat): (name: string)
    ensures |name| == i
  {
    if i == 0 then "" else "i" + Unary(i - 1)
  }

  // The i-th of `total` writers: its claim ranks before every earlier one's.
  function ClaimOf(total: nat, i: nat): Entry {
    Claim("c" + Unary(i), Some(Owner(if i < total then total - i else 0, i)))
  }

  function TargetOf(i: nat): string {
    "p" + Unary(i)
  }

  function ClaimsOf(total: nat, lo: nat, hi: nat): set<Entry> {
    set i: nat | lo <= i < hi :: ClaimOf(total, i)
  }

  function Targets(lo: nat, hi: nat): set<string> {
    set i: nat | lo <= i < hi :: TargetOf(i)
  }

  function PayloadsOf(hi: nat): set<Entry> {
    set i: nat | i < hi :: Payload(TargetOf(i))
  }

  lemma TargetsApart(i: nat, j: nat)
    requires i != j
    ensures TargetOf(i) != TargetOf(j)
  {
    assert |TargetOf(i)| == i + 1 && |TargetOf(j)| == j + 1;
  }

  lemma NamesApart(total: nat, i: nat, j: nat)
    ensures i != j ==> ClaimOf(total, i).name != ClaimOf(total, j).name
    ensures ClaimOf(total, i).name != TargetOf(j)
  {
    assert |ClaimOf(total, i).name| == i + 1 && |ClaimOf(total, j).name| == j + 1;
    assert ClaimOf(total, i).name[0] == 'c' && TargetOf(j)[0] == 'p';
  }

  lemma {:induction false} TargetsCount(lo: nat, hi: nat)
    requires lo <= hi
    ensures |Targets(lo, hi)| == hi - lo
    decreases hi
  {
    if lo == hi {
      assert Targets(lo, hi) == {};
    } else {
      TargetsCount(lo, hi - 1);
      forall i: nat | lo <= i < hi - 1 ensures TargetOf(i) != TargetOf(hi - 1) {
        TargetsApart(i, hi - 1);
      }
      assert TargetOf(hi - 1) !in Targets(lo, hi - 1);
      assert Targets(lo, hi) == Targets(lo, hi - 1) + {TargetOf(hi - 1)};
    }
  }

  lemma {:induction false} PayloadsCount(hi: nat)
    ensures |PayloadsOf(hi)| == hi
  {
    if hi == 0 {
      assert PayloadsOf(hi) == {};
    } else {
      PayloadsCount(hi - 1);
      forall i: nat | i < hi - 1 ensures TargetOf(i) != TargetOf(hi - 1) {
        TargetsApart(i, hi - 1);
      }
      assert Payload(TargetOf(hi - 1)) !in PayloadsOf(hi - 1);
      assert PayloadsOf(hi) == PayloadsOf(hi - 1) + {Payload(TargetOf(hi - 1))};
    }
  }

  // Every election reads the directory as it is.
  predicate ScansExact(cap: nat, s: State, steps: seq<Step>)
    requires Legal(cap, s, steps)
  {
    |steps| == 0
    || var last := |steps| - 1;
       && ScansExact(cap, s, steps[..last])
       && (steps[last].Elect? ==> steps[last].seen == After(cap, s, steps[..last]).entries)
  }

  // A run from the empty directory with exact scans, where it ends, and which
  // payload names lost their audit.
  ghost predicate Reaches(cap: nat, steps: seq<Step>, t: State, lost: set<string>) {
    && Legal(cap, EMPTY, steps) && After(cap, EMPTY, steps) == t
    && ScansExact(cap, EMPTY, steps) && Lost(cap, EMPTY, steps) == lost
  }

  lemma OneMore(cap: nat, steps: seq<Step>, s: State, lost: set<string>, step: Step, t: State)
    requires Reaches(cap, steps, s, lost) && Enabled(s, step) && Apply(cap, s, step) == t
    requires step.Elect? ==> step.seen == s.entries
    ensures Reaches(cap, steps + [step], t, lost + LostBy(s, step))
    ensures !step.Die? ==> Reaches(cap, steps + [step], t, lost)
  {
    hide Enabled, Apply;
    assert (steps + [step])[..|steps|] == steps;
    assert !step.Die? ==> lost + LostBy(s, step) == lost;
  }

  // All `total` writers claim and are elected, one after the other, while none of
  // them has renamed its claim: each finds itself first in rank.
  function Claiming(total: nat, k: nat): seq<Step> {
    if k == 0 then []
    else Claiming(total, k - 1)
         + [Join(k - 1)] + [WriteClaim(k - 1, ClaimOf(total, k - 1))] + [Elect(k - 1, ClaimsOf(total, 0, k))]
  }

  function AllElected(total: nat, k: nat): State {
    State(ClaimsOf(total, 0, k), map i: nat | i < k :: Elected(ClaimOf(total, i)), {})
  }

  lemma NewestIsAdmitted(cap: nat, total: nat, k: nat)
    requires cap > 0 && k < total
    ensures Admits(cap, ClaimsOf(total, 0, k + 1), ClaimOf(total, k))
  {
    var seen := ClaimsOf(total, 0, k + 1);
    assert Payloads(seen) == {};
    assert ClaimOf(total, k) in Claims(seen);
    forall c | c in Claims(seen) ensures !Before(c, ClaimOf(total, k)) {
      BeforeIsStrictOrder(c, c, c);
    }
    assert Ahead(Claims(seen), ClaimOf(total, k)) == {};
  }

  lemma ClaimsGrow(total: nat, k: nat)
    ensures ClaimsOf(total, 0, k + 1) == ClaimsOf(total, 0, k) + {ClaimOf(total, k)}
    ensures forall e :: e in ClaimsOf(total, 0, k) ==> e.name != ClaimOf(total, k).name
  {
    forall i: nat | i < k ensures ClaimOf(total, i).name != ClaimOf(total, k).name {
      NamesApart(total, i, k);
    }
  }

  function Joined(total: nat, k: nat): State {
    AllElected(total, k).(procs := AllElected(total, k).procs[k := Idle])
  }

  function Wrote(total: nat, k: nat): State {
    State(ClaimsOf(total, 0, k + 1), AllElected(total, k).procs[k := Claimed(ClaimOf(total, k))], {})
  }

  lemma NextJoins(cap: nat, total: nat, k: nat)
    ensures Enabled(AllElected(total, k), Join(k)) && Apply(cap, AllElected(total, k), Join(k)) == Joined(total, k)
  {
    hide ClaimsOf, ClaimOf;
  }

  lemma NextWrites(cap: nat, total: nat, k: nat)
    ensures var step := WriteClaim(k, ClaimOf(total, k));
            Enabled(Joined(total, k), step) && Apply(cap, Joined(total, k), step) == Wrote(total, k)
  {
    ClaimsGrow(total, k);
    hide ClaimsOf;
  }

  lemma NextIsElected(cap: nat, total: nat, k: nat)
    requires cap > 0 && k < total
    ensures var step := Elect(k, ClaimsOf(total, 0, k + 1));
            Enabled(Wrote(total, k), step) && Apply(cap, Wrote(total, k), step) == AllElected(total, k + 1)
  {
    NewestIsAdmitted(cap, total, k);
    hide ClaimsOf, ClaimOf, Admits;
    var step := Elect(k, ClaimsOf(total, 0, k + 1));
    assert Apply(cap, Wrote(total, k), step).procs == AllElected(total, k + 1).procs;
  }

  lemma {:induction false} ClaimingElectsAll(cap: nat, total: nat, k: nat)
    requires cap > 0 && k <= total
    ensures Reaches(cap, Claiming(total, k), AllElected(total, k), {})
  {
    hide Reaches, AllElected, ClaimsOf, ClaimOf;
    if k == 0 {
      NothingClaimed(cap, total);
    } else {
      ClaimingElectsAll(cap, total, k - 1);
      OneElected(cap, total, k - 1, Claiming(total, k - 1));
    }
  }

  lemma NothingClaimed(cap: nat, total: nat)
    ensures Reaches(cap, [], AllElected(total, 0), {})
  {
    assert ClaimsOf(total, 0, 0) == {};
    assert AllElected(total, 0).procs == map[];
  }

  lemma OneElected(cap: nat, total: nat, k: nat, before: seq<Step>)
    requires cap > 0 && k < total && Reaches(cap, before, AllElected(total, k), {})
    ensures var steps := before + [Join(k)] + [WriteClaim(k, ClaimOf(total, k))] + [Elect(k, ClaimsOf(total, 0, k + 1))];
            Reaches(cap, steps, AllElected(total, k + 1), {})
  {
    NextJoins(cap, total, k);
    NextWrites(cap, total, k);
    NextIsElected(cap, total, k);
    hide Reaches, Apply, Enabled, AllElected, Joined, ClaimsOf, ClaimOf;
    var write := WriteClaim(k, ClaimOf(total, k));
    OneMore(cap, before, AllElected(total, k), {}, Join(k), Joined(total, k));
    OneMore(cap, before + [Join(k)], Joined(total, k), {}, write, Wrote(total, k));
    OneMore(cap, before + [Join(k)] + [write], Wrote(total, k), {}, Elect(k, ClaimsOf(total, 0, k + 1)), AllElected(total, k + 1));
  }

  // Then they rename in turn: the first `cap` audit, the others die before they do.
  function Crashing(cap: nat, total: nat, j: nat): seq<Step> {
    if j == 0 then Claiming(total, total)
    else Crashing(cap, total, j - 1)
         + [Commit(j - 1, TargetOf(j - 1))] + [if j - 1 < cap then Audit(j - 1) else Die(j - 1)]
  }

  function SomeRenamed(cap: nat, total: nat, j: nat): State {
    State(ClaimsOf(total, j, total) + PayloadsOf(j),
          map i: nat | i < total && (i < cap || i >= j) :: if i < j then Idle else Elected(ClaimOf(total, i)),
          Targets(cap, j))
  }

  function OneCommitted(cap: nat, total: nat, j: nat): State {
    State(ClaimsOf(total, j + 1, total) + PayloadsOf(j + 1),
          SomeRenamed(cap, total, j).procs[j := Committed(TargetOf(j))],
          Targets(cap, j) + {TargetOf(j)})
  }

  lemma TargetIsFree(cap: nat, total: nat, j: nat)
    ensures NameFree(SomeRenamed(cap, total, j), TargetOf(j)) && TargetOf(j) !in Targets(cap, j)
  {
    forall i: nat | i < j ensures TargetOf(i) != TargetOf(j) {
      TargetsApart(i, j);
    }
    forall i: nat ensures ClaimOf(total, i).name != TargetOf(j) {
      NamesApart(total, i, j);
    }
  }

  lemma OneRenamed(total: nat, j: nat)
    requires j < total
    ensures ClaimOf(total, j) in ClaimsOf(total, j, total) + PayloadsOf(j)
    ensures ClaimsOf(total, j, total) + PayloadsOf(j) - {ClaimOf(total, j)} + {Payload(TargetOf(j))}
         == ClaimsOf(total, j + 1, total) + PayloadsOf(j + 1)
    ensures Payloads(ClaimsOf(total, j + 1, total) + PayloadsOf(j + 1)) == PayloadsOf(j + 1)
  {
    forall i: nat | i != j ensures ClaimOf(total, i) != ClaimOf(total, j) {
      NamesApart(total, i, j);
    }
  }

  lemma NextCommits(cap: nat, total: nat, j: nat)
    requires j < total
    ensures var s, step := SomeRenamed(cap, total, j), Commit(j, TargetOf(j));
            Enabled(s, step) && Apply(cap, s, step) == OneCommitted(cap, total, j)
  {
    TargetIsFree(cap, total, j);
    OneRenamed(total, j);
    hide ClaimsOf, PayloadsOf, ClaimOf, TargetOf, Targets, NameFree;
  }

  lemma NextIsAudited(cap: nat, total: nat, j: nat)
    requires j < total && j < cap
    ensures var s := OneCommitted(cap, total, j);
            Enabled(s, Audit(j)) && Apply(cap, s, Audit(j)) == SomeRenamed(cap, total, j + 1)
    ensures Targets(cap, j) == Targets(cap, j + 1)
  {
    CommittedFits(cap, total, j);
    TargetsGrow(cap, j);
    SettledProcs(cap, total, j);
    hide ClaimsOf, PayloadsOf, Payloads, ClaimOf, TargetOf, Targets;
    var target := TargetOf(j);
    assert {target} - {target} == {};
    var s := OneCommitted(cap, total, j);
    assert s.unaudited == {target};
    hide SomeRenamed, OneCommitted;
    assert Apply(cap, s, Audit(j)) == s.(procs := s.procs[j := Idle], unaudited := {});
    assert SomeRenamed(cap, total, j + 1) == State(s.entries, s.procs[j := Idle], {}) by {
      RenamedIs(cap, total, j);
    }
  }

  lemma RenamedIs(cap: nat, total: nat, j: nat)
    requires j < total && j < cap
    ensures var s := OneCommitted(cap, total, j);
            SomeRenamed(cap, total, j + 1) == State(s.entries, s.procs[j := Idle], {})
  {
    TargetsGrow(cap, j);
    SettledProcs(cap, total, j);
    hide ClaimsOf, PayloadsOf, ClaimOf, TargetOf, Targets;
  }

  lemma CommittedFits(cap: nat, total: nat, j: nat)
    requires j < total
    ensures |Payloads(OneCommitted(cap, total, j).entries)| == j + 1
  {
    OneRenamed(total, j);
    PayloadsCount(j + 1);
  }

  lemma SettledProcs(cap: nat, total: nat, j: nat)
    requires j < total
    ensures var procs := OneCommitted(cap, total, j).procs;
            && j in procs && procs[j] == Committed(TargetOf(j))
            && SomeRenamed(cap, total, j + 1).procs == if j < cap then procs[j := Idle] else procs - {j}
  {
    hide ClaimsOf, PayloadsOf, ClaimOf, TargetOf, Targets;
  }

  lemma NextDies(cap: nat, total: nat, j: nat)
    requires cap <= j < total
    ensures var s := OneCommitted(cap, total, j);
            && Enabled(s, Die(j)) && Apply(cap, s, Die(j)) == SomeRenamed(cap, total, j + 1)
            && Targets(cap, j) + LostBy(s, Die(j)) == Targets(cap, j + 1)
  {
    TargetsGrow(cap, j);
    SettledProcs(cap, total, j);
    hide ClaimsOf, PayloadsOf, ClaimOf, TargetOf, Targets;
  }

  lemma TargetsGrow(cap: nat, j: nat)
    ensures j >= cap ==> Targets(cap, j + 1) == Targets(cap, j) + {TargetOf(j)}
    ensures j < cap ==> Targets(cap, j) == {} && Targets(cap, j + 1) == {}
  {
  }

  lemma {:induction false} CrashingLoses(cap: nat, total: nat, j: nat)
    requires cap > 0 && j <= total
    ensures Reaches(cap, Crashing(cap, total, j), SomeRenamed(cap, total, j), Targets(cap, j))
  {
    hide Reaches, SomeRenamed, AllElected, Targets;
    if j == 0 {
      ClaimingElectsAll(cap, total, total);
      NothingRenamed(cap, total);
    } else {
      CrashingLoses(cap, total, j - 1);
      OneWriterEnds(cap, total, j - 1, Crashing(cap, total, j - 1));
    }
  }

  lemma OneWriterEnds(cap: nat, total: nat, j: nat, before: seq<Step>)
    requires j < total && Reaches(cap, before, SomeRenamed(cap, total, j), Targets(cap, j))
    ensures Reaches(cap, before + [Commit(j, TargetOf(j))] + [if j < cap then Audit(j) else Die(j)],
                    SomeRenamed(cap, total, j + 1), Targets(cap, j + 1))
  {
    hide Reaches, SomeRenamed, OneCommitted, Targets, TargetOf, Apply, Enabled, LostBy;
    var commit := Commit(j, TargetOf(j));
    NextCommits(cap, total, j);
    OneMore(cap, before, SomeRenamed(cap, total, j), Targets(cap, j), commit, OneCommitted(cap, total, j));
    if j < cap {
      NextIsAudited(cap, total, j);
      OneMore(cap, before + [commit], OneCommitted(cap, total, j), Targets(cap, j), Audit(j), SomeRenamed(cap, total, j + 1));
    } else {
      NextDies(cap, total, j);
      OneMore(cap, before + [commit], OneCommitted(cap, total, j), Targets(cap, j), Die(j), SomeRenamed(cap, total, j + 1));
    }
  }

  lemma NothingRenamed(cap: nat, total: nat)
    ensures SomeRenamed(cap, total, 0) == AllElected(total, total) && Targets(cap, 0) == {}
  {
    assert Targets(cap, 0) == {} && PayloadsOf(0) == {};
  }

  // Whatever the cap and the number of writers lost, some run from the empty
  // directory, with every scan exact, ends exactly at the bound.
  lemma LostAuditsCanAllOverbook(cap: nat, lost: nat)
    requires cap > 0
    ensures var run := Crashing(cap, cap + lost, cap + lost);
            && Initial(cap, EMPTY) && Legal(cap, EMPTY, run) && ScansExact(cap, EMPTY, run)
            && Auditors(After(cap, EMPTY, run)) == {} && |Lost(cap, EMPTY, run)| == lost
            && |Payloads(After(cap, EMPTY, run).entries)| == cap + lost
  {
    var total := cap + lost;
    CrashingLoses(cap, total, total);
    RunEnds(cap, total);
    TargetsCount(cap, total);
    hide Legal, After, ScansExact, Lost, SomeRenamed, Targets;
  }

  lemma RunEnds(cap: nat, total: nat)
    ensures Initial(cap, EMPTY) && Auditors(SomeRenamed(cap, total, total)) == {}
    ensures |Payloads(SomeRenamed(cap, total, total).entries)| == total
  {
    PayloadsCount(total);
    assert Payloads({}) == {};
    assert ClaimsOf(total, total, total) == {};
    assert Payloads(PayloadsOf(total)) == PayloadsOf(total);
  }

  // A cap of zero is never overbooked: no election admits anything.
  lemma {:induction false} ZeroCapAdmitsNothing(s: State, steps: seq<Step>)
    requires Initial(0, s) && Legal(0, s, steps)
    ensures Payloads(After(0, s, steps).entries) == {}
    ensures forall pid :: pid in After(0, s, steps).procs ==>
              var p := After(0, s, steps).procs[pid]; p.Idle? || p.Claimed? || p.Refused?
  {
    if |steps| > 0 {
      var last := |steps| - 1;
      ZeroCapAdmitsNothing(s, steps[..last]);
      ZeroCapStays(After(0, s, steps[..last]), steps[last]);
    }
  }

  lemma ZeroCapStays(s: State, step: Step)
    requires Enabled(s, step) && Payloads(s.entries) == {}
    requires forall pid :: pid in s.procs ==> s.procs[pid].Idle? || s.procs[pid].Claimed? || s.procs[pid].Refused?
    ensures Payloads(Apply(0, s, step).entries) == {}
    ensures forall pid :: pid in Apply(0, s, step).procs ==>
              var p := Apply(0, s, step).procs[pid]; p.Idle? || p.Claimed? || p.Refused?
  {
    hide Abandoned;
  }
}
