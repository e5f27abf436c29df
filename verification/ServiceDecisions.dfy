// What the briefing-review service answers and appends on every reachable
// ledger, told from the ledger's own records
// (src/briefing-review/service.ts, events.ts).
module ServiceDecisions {
  import opened Outcomes
  import opened BriefingTypes
  import opened BriefingLedger
  import opened BriefingGate
  import opened BriefingService
  import opened BriefingRuns
  import opened BriefingTheorems
  import opened GateDecisions

  // ---- Commissions --------------------------------------------------------------------

  // A raise of this review, and the first generation of another.
  function Raise(id: ReviewId, a: seq<Armed>, req: CommissionRequest): Armed
    requires |a| > 0
  {
    var newest := a[|a| - 1];
    Armed(id, CommissionKey(req.briefing, req.repo, req.tier), newest.chainKey, BriefingSha(req.briefing), req.repo, newest.title,
          req.tier, req.justification, newest.round, |a| + 1, TierLenses(req.tier), newest.headSha, Some(|a|))
  }

  function First(req: CommissionRequest, round: nat, headSha: Option<string>): Armed {
    Armed(ReviewId(req.briefing, req.repo), CommissionKey(req.briefing, req.repo, req.tier), ChainKey(req.repo, req.title),
          BriefingSha(req.briefing), req.repo, req.title, req.tier, req.justification, round, 1, TierLenses(req.tier), headSha, None)
  }

  lemma DecidedIs(ledger: Ledger, id: ReviewId)
    requires LedgerOk(ledger) && |ArmedOf(ledger, id)| > 0
    ensures var a := ArmedOf(ledger, id);
            LatestArmed(ledger, id) == Some(a[|a| - 1]) && (IsDecided(ledger, a[|a| - 1]) <==> Decision(ledger, id).Some?)
  {
    hide LedgerOk, ArmedOf, VerdictsOf, PushbacksOf, IsDecided, LatestArmed, AllReported;
    NotDecidedIsUndecided(ledger, id);
    FactsOf(ledger, id);
    UndecidedIs(ArmedOf(ledger, id), VerdictsOf(ledger, id));
  }

  lemma UndecidedIs(a: seq<Armed>, v: seq<LensVerdict>)
    requires |a| > 0 && DecisionFacts(a, v)
    ensures Undecided(v) <==> !SomeChangesNeeded(v) && !AllReported(v, a[|a| - 1].lenses)
  {
    hide AllReported;
    if !Undecided(v) {
      var i :| 0 <= i < |v| && v[i].decisive;
      assert v[i].verdict.ChangesNeeded? ==> SomeChangesNeeded(v);
    }
  }

  lemma CapIsCounted(ledger: Ledger, key: ChainKey)
    requires LedgerOk(ledger)
    ensures TrailingRun(ledger, ReviewOrder(ledger, key)) >= ROUND_CAP <==> AtCap(ledger, key)
  {
    hide LedgerOk, AtCap, ReviewOrder, RowFits;
    CapIsRead(ledger, key);
    ChainRowsFit(ledger, key);
    TrailingCountsAgree(ledger, ReviewOrder(ledger, key));
  }

  lemma ReadsBackTheNewest(ledger: Ledger, id: ReviewId, x: Armed)
    requires LedgerOk(ledger + [ArmedEvent(x)]) && x.reviewId == id
    ensures LatestArmed(ledger + [ArmedEvent(x)], id) == Some(x)
  {
    hide LedgerOk, ArmedOf, LatestArmed;
    LatestIsLast(ledger + [ArmedEvent(x)], id);
    Appended(ledger, ArmedEvent(x));
  }

  lemma RaiseIs(ledger: Ledger, req: CommissionRequest)
    requires LedgerOk(ledger) && |ArmedOf(ledger, ReviewId(req.briefing, req.repo))| > 0
    requires var a := ArmedOf(ledger, ReviewId(req.briefing, req.repo)); TierRank(req.tier) > TierRank(a[|a| - 1].tier)
    ensures var a := ArmedOf(ledger, ReviewId(req.briefing, req.repo));
            RaisedArmed(a[|a| - 1], req) == Raise(ReviewId(req.briefing, req.repo), a, req)
  {
    hide LedgerOk, ArmedOf, TierLenses, UnionLenses, TierRank;
    var a := ArmedOf(ledger, ReviewId(req.briefing, req.repo));
    GenerationsOf(ledger, ReviewId(req.briefing, req.repo));
    RaisedLensesAreTheTiers(a[|a| - 1].tier, req.tier);
  }

  // An equal or lower tier converges; a higher one opens the next generation of an
  // undecided review; a new briefing opens the next round of its chain, unless its
  // last three all reached CHANGES-NEEDED. The record says what was asked for.
  lemma CommissionIsDecidedExactly(steps: seq<Step>, req: CommissionRequest, headSha: Option<string>)
    requires Legal(START, steps)
    ensures var ledger := After(START, steps).ledger;
            var id, key := ReviewId(req.briefing, req.repo), ChainKey(req.repo, req.title);
            var a := ArmedOf(ledger, id);
            Arming(ledger, req, headSha)
            == if |a| > 0 && TierRank(req.tier) <= TierRank(a[|a| - 1].tier) then (Ok(Commissioned(a[|a| - 1], false)), [])
               else if |a| > 0 && Decision(ledger, id).Some? then (Err(AlreadyDecided), [])
               else if |a| > 0 then (Ok(Commissioned(Raise(id, a, req), true)), [ArmedEvent(Raise(id, a, req))])
               else if AtCap(ledger, key) then (Err(AtRoundCap), [])
               else var x := First(req, |ReviewOrder(ledger, key)| + 1, headSha); (Ok(Commissioned(x, false)), [ArmedEvent(x)])
  {
    hide Legal, After, LedgerOk, Arming, ArmedOf, Raise, First, Decision, AtCap, ReviewOrder, TierRank;
    EveryLedgerIsOk(steps);
    var ledger := After(START, steps).ledger;
    ArmingKeepsLedger(ledger, req, headSha);
    if |ArmedOf(ledger, ReviewId(req.briefing, req.repo))| > 0 {
      AgainIsDecided(ledger, req, headSha);
    } else {
      FirstIsDecided(ledger, req, headSha);
    }
  }

  lemma AgainIsDecided(ledger: Ledger, req: CommissionRequest, headSha: Option<string>)
    requires LedgerOk(ledger) && LedgerOk(ledger + Arming(ledger, req, headSha).1)
    requires |ArmedOf(ledger, ReviewId(req.briefing, req.repo))| > 0
    ensures var id, a := ReviewId(req.briefing, req.repo), ArmedOf(ledger, ReviewId(req.briefing, req.repo));
            Arming(ledger, req, headSha)
            == if TierRank(req.tier) <= TierRank(a[|a| - 1].tier) then (Ok(Commissioned(a[|a| - 1], false)), [])
               else if Decision(ledger, id).Some? then (Err(AlreadyDecided), [])
               else (Ok(Commissioned(Raise(id, a, req), true)), [ArmedEvent(Raise(id, a, req))])
  {
    hide LedgerOk, ArmedOf, Raise, RaisedArmed, Decision, TierRank, IsDecided, LatestArmed, ReviewOrder;
    var id, a := ReviewId(req.briefing, req.repo), ArmedOf(ledger, ReviewId(req.briefing, req.repo));
    DecidedIs(ledger, id);
    if TierRank(req.tier) > TierRank(a[|a| - 1].tier) {
      RaiseIs(ledger, req);
      RaiseIsOfReview(id, a, req);
      if Decision(ledger, id).None? { ReadsBackTheNewest(ledger, id, Raise(id, a, req)); }
    }
  }

  lemma RaiseIsOfReview(id: ReviewId, a: seq<Armed>, req: CommissionRequest)
    requires |a| > 0
    ensures Raise(id, a, req).reviewId == id
  {
  }

  lemma FirstIsDecided(ledger: Ledger, req: CommissionRequest, headSha: Option<string>)
    requires LedgerOk(ledger) && LedgerOk(ledger + Arming(ledger, req, headSha).1)
    requires |ArmedOf(ledger, ReviewId(req.briefing, req.repo))| == 0
    ensures var key := ChainKey(req.repo, req.title);
            Arming(ledger, req, headSha)
            == if AtCap(ledger, key) then (Err(AtRoundCap), [])
               else var x := First(req, |ReviewOrder(ledger, key)| + 1, headSha); (Ok(Commissioned(x, false)), [ArmedEvent(x)])
  {
    hide LedgerOk, ArmedOf, AtCap, LatestArmed, ReviewOrder, TrailingRun;
    LatestIsLast(ledger, ReviewId(req.briefing, req.repo));
    CapIsCounted(ledger, ChainKey(req.repo, req.title));
    var x := First(req, |ReviewOrder(ledger, ChainKey(req.repo, req.title))| + 1, headSha);
    assert FirstArmed(ledger, req, headSha) == x;
    if !AtCap(ledger, ChainKey(req.repo, req.title)) {
      ReadsBackTheNewest(ledger, ReviewId(req.briefing, req.repo), x);
    }
  }

  // ---- Lens results ------------------------------------------------------------------------

  // What a first result of this lens records.
  ghost predicate Records(ledger: Ledger, req: ResultRequest, x: LensVerdict) {
    var id := ReviewId(req.sha.briefing, req.repo);
    var a, v := ArmedOf(ledger, id), VerdictsOf(ledger, id);
    && |a| > 0 && x.reviewId == id && x.sha == req.sha && x.lens == req.lens && x.verdict == req.verdict
    && x.findings == req.findings && x.generation == |a| && x.chainKey == a[0].chainKey && x.round == a[0].round
    && x.aggregate == (if Decision(ledger, id).Some? then None
                       else if req.verdict.ChangesNeeded? then Some(ChangesNeeded)
                       else if forall l :: l in a[|a| - 1].lenses && l != req.lens ==> Reported(v, l) then Some(Ready)
                       else None)
    && (x.decisive <==> x.aggregate.Some?)
    && x.caught == if x.aggregate == Some(Ready) then CaughtByRevision(ledger, a[0].chainKey, id) else 0
  }

  // A result is taken whenever its lens is armed and dispatched and its evidence
  // holds, whatever the review has decided by then; only another result of the
  // same lens is in its way. A late one is recorded and decides nothing.
  lemma ResultIsDecidedExactly(steps: seq<Step>, req: ResultRequest)
    requires Legal(START, steps)
    ensures var s := After(START, steps);
            var id := ReviewId(req.sha.briefing, req.repo);
            var a, v := ArmedOf(s.ledger, id), VerdictsOf(s.ledger, id);
            var (r, appended) := Submitting(s.ledger, s.jobs, req);
            if |a| == 0 then r == Err(NotCommissioned) && appended == []
            else if req.lens !in a[|a| - 1].lenses then r == Err(LensUnknown) && appended == []
            else if req.job != LensJob(id, req.lens) then r == Err(JobMismatch) && appended == []
            else if req.job !in s.jobs || s.jobs[req.job].None? then r == Err(NotDispatched) && appended == []
            else if !EvidenceHolds(req.findings, req.verdict, s.jobs[req.job].value) then r == Err(EvidenceRefused) && appended == []
            else if Reported(v, req.lens) then
              && appended == []
              && forall i :: 0 <= i < |v| && v[i].lens == req.lens ==>
                   r == if v[i].verdict == req.verdict && v[i].findings == req.findings then Ok(ViewOf(v[i])) else Err(ResultConflict)
            else
              exists x :: Records(s.ledger, req, x) && appended == [VerdictEvent(x)] && r == Ok(ViewOf(x))
  {
    hide Legal, After, LedgerOk, ArmedOf, VerdictsOf, EvidenceHolds, Submitting, Records, ViewOf, Reported;
    EveryLedgerIsOk(steps);
    ResultIsDecided(After(START, steps).ledger, After(START, steps).jobs, req);
  }

  lemma ResultIsDecided(ledger: Ledger, jobs: Jobs, req: ResultRequest)
    requires LedgerOk(ledger)
    ensures var id := ReviewId(req.sha.briefing, req.repo);
            var a, v := ArmedOf(ledger, id), VerdictsOf(ledger, id);
            var (r, appended) := Submitting(ledger, jobs, req);
            if |a| == 0 then r == Err(NotCommissioned) && appended == []
            else if req.lens !in a[|a| - 1].lenses then r == Err(LensUnknown) && appended == []
            else if req.job != LensJob(id, req.lens) then r == Err(JobMismatch) && appended == []
            else if req.job !in jobs || jobs[req.job].None? then r == Err(NotDispatched) && appended == []
            else if !EvidenceHolds(req.findings, req.verdict, jobs[req.job].value) then r == Err(EvidenceRefused) && appended == []
            else if Reported(v, req.lens) then
              && appended == []
              && forall i :: 0 <= i < |v| && v[i].lens == req.lens ==>
                   r == if v[i].verdict == req.verdict && v[i].findings == req.findings then Ok(ViewOf(v[i])) else Err(ResultConflict)
            else
              exists x :: Records(ledger, req, x) && appended == [VerdictEvent(x)] && r == Ok(ViewOf(x))
  {
    hide LedgerOk, ArmedOf, VerdictsOf, EvidenceHolds, LatestArmed, ArmedBySha, ReviewVerdicts, LatestLensVerdict, NewVerdict,
         Records, ViewOf, Reported;
    var id := ReviewId(req.sha.briefing, req.repo);
    var a, v := ArmedOf(ledger, id), VerdictsOf(ledger, id);
    ResultReads(ledger, id, req.lens);
    if ResultRefusal(ledger, jobs, req).None? && !Reported(v, req.lens) {
      NewVerdictRecords(ledger, jobs, req);
    }
  }

  lemma ResultReads(ledger: Ledger, id: ReviewId, lens: Lens)
    requires LedgerOk(ledger)
    ensures var a, v := ArmedOf(ledger, id), VerdictsOf(ledger, id);
            && ArmedBySha(ledger, BriefingSha(id.briefing), id.repo) == Newest(a)
            && (|a| > 0 ==> a[|a| - 1].reviewId == id)
            && ReviewVerdicts(ledger, id) == v
            && (LatestLensVerdict(v, lens).Some? <==> Reported(v, lens))
            && (forall i :: 0 <= i < |v| && v[i].lens == lens ==> LatestLensVerdict(v, lens) == Some(v[i]))
  {
    hide LedgerOk, ArmedOf, VerdictsOf, PushbacksOf, LatestArmed, ArmedBySha;
    LatestIsLast(ledger, id);
    FactsOf(ledger, id);
    ReadsAreWhole(ledger, id);
    LatestLensIsUnique(VerdictsOf(ledger, id), lens);
  }

  lemma NewVerdictRecords(ledger: Ledger, jobs: Jobs, req: ResultRequest)
    requires LedgerOk(ledger) && ResultRefusal(ledger, jobs, req).None?
    requires !Reported(VerdictsOf(ledger, ReviewId(req.sha.briefing, req.repo)), req.lens)
    ensures ArmedBySha(ledger, req.sha, req.repo).Some?
    ensures Records(ledger, req, NewVerdict(ledger, ArmedBySha(ledger, req.sha, req.repo).value, req))
  {
    hide LedgerOk, ArmedOf, VerdictsOf, EvidenceHolds, LatestArmed, ArmedBySha, ReviewVerdicts, LatestLensVerdict, Reported,
         CaughtByRevision, AllReported, SomeChangesNeeded, SettlesRightly, Undecided, AggregateFor;
    var id := ReviewId(req.sha.briefing, req.repo);
    var a, v := ArmedOf(ledger, id), VerdictsOf(ledger, id);
    ResultReads(ledger, id, req.lens);
    NewVerdictSettlesRightly(ledger, jobs, req);
    NewestIsExact(ledger, id);
    FactsOf(ledger, id);
    UndecidedIs(a, v);
    SettledAggregate(a, v, NewVerdict(ledger, a[|a| - 1], req));
  }

  lemma SettledAggregate(a: seq<Armed>, v: seq<LensVerdict>, x: LensVerdict)
    requires SettlesRightly(a, v, x)
    ensures |a| > 0 && x.generation == |a| && x.chainKey == a[0].chainKey && x.round == a[0].round
    ensures x.aggregate == (if !Undecided(v) then None
                            else if x.verdict.ChangesNeeded? then Some(ChangesNeeded)
                            else if forall l :: l in a[|a| - 1].lenses && l != x.lens ==> Reported(v, l) then Some(Ready)
                            else None)
    ensures x.decisive <==> x.aggregate.Some?
  {
    hide Undecided, Reported;
    TwoVerdicts(Some(x.verdict));
  }

  // ---- Push-backs ------------------------------------------------------------------------------

  // A push-back is refused on a READY review and answered from the record when its
  // generation has one; otherwise it is recorded for the newest generation.
  lemma PushbackIsDecidedExactly(steps: seq<Step>, req: PushbackRequest)
    requires Legal(START, steps)
    ensures var ledger := After(START, steps).ledger;
            var id := ReviewId(req.sha.briefing, req.repo);
            var n := |ArmedOf(ledger, id)|;
            var (r, appended) := PushingBack(ledger, req);
            if n == 0 then r == Err(NotCommissioned) && appended == []
            else if Decision(ledger, id) == Some(Ready) then r == Err(AlreadyReady) && appended == []
            else if IsPushedBack(ledger, id) then
              && appended == []
              && exists p :: PushedBackWith(ledger, id, p) && r == if p.reason == req.reason then Ok(p) else Err(PushbackConflict)
            else
              var p := Pushback(id, req.sha, n, req.reason, req.author);
              r == Ok(p) && appended == [PushbackEvent(p)]
  {
    hide Legal, After, LedgerOk, ArmedOf, Decision, IsPushedBack, PushedBackWith, PushingBack;
    EveryLedgerIsOk(steps);
    PushbackIsDecided(After(START, steps).ledger, req);
  }

  lemma PushbackIsDecided(ledger: Ledger, req: PushbackRequest)
    requires LedgerOk(ledger)
    ensures var id := ReviewId(req.sha.briefing, req.repo);
            var n := |ArmedOf(ledger, id)|;
            var (r, appended) := PushingBack(ledger, req);
            if n == 0 then r == Err(NotCommissioned) && appended == []
            else if Decision(ledger, id) == Some(Ready) then r == Err(AlreadyReady) && appended == []
            else if IsPushedBack(ledger, id) then
              && appended == []
              && exists p :: PushedBackWith(ledger, id, p) && r == if p.reason == req.reason then Ok(p) else Err(PushbackConflict)
            else
              var p := Pushback(id, req.sha, n, req.reason, req.author);
              r == Ok(p) && appended == [PushbackEvent(p)]
  {
    hide LedgerOk, ArmedOf, VerdictsOf, PushbacksOf, AnyDecisive, DecisiveVerdict, GenerationPushback, Decision, IsPushedBack,
         PushedBackWith, LatestArmed, ArmedBySha, ReviewVerdicts;
    var id := ReviewId(req.sha.briefing, req.repo);
    LatestIsLast(ledger, id);
    FactsOf(ledger, id);
    ReadsAreWhole(ledger, id);
    if |ArmedOf(ledger, id)| > 0 {
      DecisionReads(ledger, id);
      DecisionIsRead(ledger, id);
      PushbackIsRead(ledger, id);
      NewestIsExact(ledger, id);
    }
  }

  // ---- What a revision caught --------------------------------------------------------------------

  // The blocking findings of one result, and of all results of a review.
  function Spots(findings: seq<Finding>): set<int> {
    set i | 0 <= i < |findings| && findings[i].severity.Blocking?
  }

  function Blocking(findings: seq<Finding>): nat {
    |Spots(findings)|
  }

  function AllBlocking(v: seq<LensVerdict>): nat {
    if |v| == 0 then 0 else AllBlocking(v[..|v| - 1]) + Blocking(v[|v| - 1].findings)
  }

  lemma {:induction false} BlockingIs(findings: seq<Finding>)
    ensures BlockingFindings(findings) == Blocking(findings)
  {
    if |findings| > 0 {
      BlockingIs(findings[..|findings| - 1]);
      OneSpotMore(findings);
      hide Spots;
    }
  }

  lemma OneSpotMore(findings: seq<Finding>)
    requires |findings| > 0
    ensures var last := |findings| - 1;
            && last !in Spots(findings[..last])
            && Spots(findings) == Spots(findings[..last]) + (if findings[last].severity.Blocking? then {last} else {})
  {
  }

  // Each lens counted once is each result counted once.
  lemma {:induction false} LensesCountResults(v: seq<LensVerdict>, lenses: seq<Lens>)
    requires forall i, j :: 0 <= i < j < |v| ==> v[i].lens != v[j].lens
    requires forall i, j :: 0 <= i < j < |lenses| ==> lenses[i] != lenses[j]
    ensures BlockingByLens(v, lenses) == AllBlocking(Only(v, lenses))
  {
    if |lenses| == 0 {
      OnlyNone(v);
    } else {
      LensesCountResults(v, lenses[1..]);
      LatestLensIsUnique(v, lenses[0]);
      OneLensMore(v, lenses);
    }
  }

  // The results of these lenses.
  function Only(v: seq<LensVerdict>, lenses: seq<Lens>): seq<LensVerdict> {
    if |v| == 0 then []
    else Only(v[..|v| - 1], lenses) + (if v[|v| - 1].lens in lenses then [v[|v| - 1]] else [])
  }

  lemma {:induction false} OnlyNone(v: seq<LensVerdict>)
    ensures Only(v, []) == []
  {
    if |v| > 0 { OnlyNone(v[..|v| - 1]); }
  }

  lemma {:induction false} OnlyAll(v: seq<LensVerdict>, lenses: seq<Lens>)
    requires forall i :: 0 <= i < |v| ==> v[i].lens in lenses
    ensures Only(v, lenses) == v
  {
    if |v| > 0 { OnlyAll(v[..|v| - 1], lenses); }
  }

  lemma AllBlockingAppend(v: seq<LensVerdict>, x: LensVerdict)
    ensures AllBlocking(v + [x]) == AllBlocking(v) + Blocking(x.findings)
  {
    assert (v + [x])[..|v|] == v;
  }

  lemma {:induction false} OneLensMore(v: seq<LensVerdict>, lenses: seq<Lens>)
    requires |lenses| > 0 && lenses[0] !in lenses[1..]
    requires forall i, j :: 0 <= i < j < |v| ==> v[i].lens != v[j].lens
    ensures AllBlocking(Only(v, lenses)) == AllBlocking(Only(v, lenses[1..]))
         + (if LatestLensVerdict(v, lenses[0]).Some? then BlockingFindings(LatestLensVerdict(v, lenses[0]).value.findings) else 0)
  {
    if |v| > 0 {
      hide Blocking, AllBlocking, BlockingFindings;
      var init, last := v[..|v| - 1], v[|v| - 1];
      OneLensMore(init, lenses);
      LatestLensIsUnique(init, lenses[0]);
      BlockingIs(last.findings);
      AllBlockingAppend(Only(init, lenses), last);
      AllBlockingAppend(Only(init, lenses[1..]), last);
      assert lenses == [lenses[0]] + lenses[1..];
      assert Only(init, lenses) + [] == Only(init, lenses) && Only(init, lenses[1..]) + [] == Only(init, lenses[1..]);
      if last.lens == lenses[0] {
        assert forall i :: 0 <= i < |init| ==> init[i].lens != lenses[0];
      }
    }
  }

  // What a READY revision caught is every blocking finding of the round before it,
  // if that reached CHANGES-NEEDED, and otherwise nothing.
  lemma CaughtIsCounted(steps: seq<Step>, id: ReviewId)
    requires Legal(START, steps) && |ArmedOf(After(START, steps).ledger, id)| > 0
    ensures var ledger := After(START, steps).ledger;
            var armed := ArmedOf(ledger, id)[0];
            var order := ReviewOrder(ledger, armed.chainKey);
            && 1 <= armed.round <= |order|
            && CaughtByRevision(ledger, armed.chainKey, id)
               == if armed.round > 1 && Decision(ledger, order[armed.round - 2]) == Some(ChangesNeeded)
                  then AllBlocking(VerdictsOf(ledger, order[armed.round - 2])) else 0
  {
    hide Legal, After, LedgerOk, ArmedOf, VerdictsOf, PushbacksOf, Decision, AllBlocking, BlockingByLens, AnyDecisive, ReviewOrder;
    var ledger := After(START, steps).ledger;
    EveryLedgerIsOk(steps);
    PlaceInChain(ledger, id);
    var armed := ArmedOf(ledger, id)[0];
    var order := ReviewOrder(ledger, armed.chainKey);
    OrderIsDistinct(ledger, armed.chainKey);
    IndexOfDistinct(order, armed.round - 1);
    if armed.round > 1 {
      ChainFactsOf(ledger, armed.chainKey);
      PreviousIsCounted(ledger, order[armed.round - 2]);
    }
  }

  lemma OrderIsDistinct(ledger: Ledger, key: ChainKey)
    ensures var order := ReviewOrder(ledger, key); forall i, j :: 0 <= i < j < |order| ==> order[i] != order[j]
  {
    DistinctIsDistinct(IdsOf(ChainOf(ledger, key)));
  }

  lemma PreviousIsCounted(ledger: Ledger, id: ReviewId)
    requires LedgerOk(ledger) && |ArmedOf(ledger, id)| > 0
    ensures ReachedChangesNeeded(ledger, id) <==> Decision(ledger, id) == Some(ChangesNeeded)
    ensures BlockingByLens(ReviewVerdicts(ledger, id), LENSES) == AllBlocking(VerdictsOf(ledger, id))
  {
    hide LedgerOk, ArmedOf, VerdictsOf, PushbacksOf, Decision, AnyDecisive, AllBlocking, BlockingByLens, ReviewVerdicts, VerdictFacts;
    DecisionIsRead(ledger, id);
    FactsOf(ledger, id);
    ReadsAreWhole(ledger, id);
    ResultsAreCounted(id, ArmedOf(ledger, id), VerdictsOf(ledger, id));
  }

  lemma ResultsAreCounted(id: ReviewId, a: seq<Armed>, v: seq<LensVerdict>)
    requires VerdictFacts(id, a, v)
    ensures BlockingByLens(v, LENSES) == AllBlocking(v)
  {
    hide AllBlocking, BlockingByLens, BlockingFindings;
    forall i | 0 <= i < |v| ensures v[i].lens in LENSES {
      EveryLensIsListed(v[i].lens);
    }
    OnlyAll(v, LENSES);
    LensesCountResults(v, LENSES);
  }

  lemma EveryLensIsListed(lens: Lens)
    ensures lens in LENSES
  {
    assert LENSES[0] == Stranger && LENSES[1] == Acceptance && LENSES[2] == Verification && LENSES[3] == Repo && LENSES[4] == Scope;
  }
}
