// What a reader of the briefing review may rely on, over every run: one
// decision per review, an aggregate that does not depend on arrival order, two
// round-cap computations that agree, replays that converge, and a gate that
// admits an enforced tier only on READY or on a recorded push-back.
module BriefingTheorems {
  import opened Outcomes
  import opened BriefingTypes
  import opened BriefingLedger
  import opened BriefingGate
  import opened BriefingService
  import opened BriefingRuns

  // ---- A later state of the same run ---------------------------------------------

  ghost predicate Extends(s: State, t: State) {
    && |s.ledger| <= |t.ledger| && t.ledger[..|s.ledger|] == s.ledger
    && (forall j :: j in s.jobs ==> j in t.jobs && t.jobs[j] == s.jobs[j])
  }

  lemma {:induction false} RunExtends(steps: seq<Step>, k: nat)
    requires Legal(START, steps) && k <= |steps|
    ensures Legal(START, steps[..k]) && Extends(After(START, steps[..k]), After(START, steps))
    decreases |steps| - k, |steps|
  {
    if k == |steps| {
      assert steps[..k] == steps;
    } else {
      var last := |steps| - 1;
      assert steps[..last][..k] == steps[..k];
      RunExtends(steps[..last], k);
    }
  }

  lemma OneMore(steps: seq<Step>, k: nat)
    requires k < |steps|
    ensures After(START, steps[..k + 1]) == Apply(After(START, steps[..k]), steps[k])
  {
    assert steps[..k + 1][..k] == steps[..k];
  }

  // What the readers see of an older ledger is a prefix of what they see later.
  lemma {:induction false} ReadsExtend(earlier: Ledger, later: Ledger, id: ReviewId)
    requires |earlier| <= |later| && later[..|earlier|] == earlier
    ensures ArmedOf(earlier, id) <= ArmedOf(later, id)
    ensures VerdictsOf(earlier, id) <= VerdictsOf(later, id)
    ensures PushbacksOf(earlier, id) <= PushbacksOf(later, id)
    decreases |later|
  {
    if |earlier| == |later| {
      assert later == earlier;
    } else {
      var init, e := later[..|later| - 1], later[|later| - 1];
      assert init[..|earlier|] == earlier;
      ReadsExtend(earlier, init, id);
      assert later == init + [e];
      Appended(init, e);
    }
  }

  ghost predicate SubLenses(a: seq<Lens>, b: seq<Lens>) {
    forall l :: l in a ==> l in b
  }

  // ---- One decision ----------------------------------------------------------------

  // A review gets at most one decisive verdict. It lies in the newest
  // generation, and no later raise or result replaces it or adds another.
  lemma SingleDecision(steps: seq<Step>, k: nat, id: ReviewId, i: nat)
    requires Legal(START, steps) && k <= |steps|
    requires i < |VerdictsOf(After(START, steps[..k]).ledger, id)| && VerdictsOf(After(START, steps[..k]).ledger, id)[i].decisive
    ensures var s, t := After(START, steps[..k]).ledger, After(START, steps).ledger;
            var v := VerdictsOf(t, id);
            && i < |v| && v[i] == VerdictsOf(s, id)[i]
            && (forall j :: 0 <= j < |v| && v[j].decisive ==> j == i)
            && ArmedOf(t, id) == ArmedOf(s, id) && v[i].generation == |ArmedOf(t, id)|
            && AnyDecisive(ReviewVerdicts(t, id)) == Some(v[i])
  {
    hide LedgerOk, ArmedOf, VerdictsOf, PushbacksOf;
    RunExtends(steps, k);
    var s, t := After(START, steps[..k]).ledger, After(START, steps).ledger;
    EveryLedgerIsOk(steps[..k]);
    EveryLedgerIsOk(steps);
    FactsOf(s, id);
    FactsOf(t, id);
    ReadsExtend(s, t, id);
    ReadsAreWhole(t, id);
    DecisiveReads(VerdictsOf(t, id), |ArmedOf(t, id)|);
  }

  // ---- The aggregate ------------------------------------------------------------------

  ghost predicate SomeChangesNeeded(v: seq<LensVerdict>) {
    exists i :: 0 <= i < |v| && v[i].verdict.ChangesNeeded?
  }

  // The decision is a function of which results exist, not of their order: any
  // CHANGES-NEEDED decides at once; otherwise READY as soon as every lens of
  // the newest generation has reported; otherwise nothing is decided yet.
  lemma AggregateIsOrderIndependent(steps: seq<Step>, id: ReviewId)
    requires Legal(START, steps) && |ArmedOf(After(START, steps).ledger, id)| > 0
    ensures var ledger := After(START, steps).ledger;
            var v := VerdictsOf(ledger, id);
            var newest := LatestArmed(ledger, id);
            && newest.Some?
            && AggregateOf(DecisiveVerdict(ReviewVerdicts(ledger, id), newest.value.generation))
               == (if SomeChangesNeeded(v) then Some(ChangesNeeded)
                   else if AllReported(v, newest.value.lenses) then Some(Ready)
                   else None)
  {
    hide LedgerOk, ArmedOf, VerdictsOf, PushbacksOf;
    var ledger := After(START, steps).ledger;
    EveryLedgerIsOk(steps);
    DecisionReads(ledger, id);
  }

  lemma DecisionReads(ledger: Ledger, id: ReviewId)
    requires LedgerOk(ledger) && |ArmedOf(ledger, id)| > 0
    ensures var v := VerdictsOf(ledger, id);
            var newest := LatestArmed(ledger, id);
            && newest == Newest(ArmedOf(ledger, id)) && newest.Some?
            && AggregateOf(DecisiveVerdict(ReviewVerdicts(ledger, id), newest.value.generation))
               == AggregateOf(AnyDecisive(ReviewVerdicts(ledger, id)))
            && AggregateOf(AnyDecisive(ReviewVerdicts(ledger, id)))
               == (if SomeChangesNeeded(v) then Some(ChangesNeeded)
                   else if AllReported(v, newest.value.lenses) then Some(Ready)
                   else None)
  {
    hide LedgerOk, ArmedOf, VerdictsOf, PushbacksOf, ArmedFacts, PushbackFacts, AnyDecisive, DecisiveVerdict, AllReported;
    FactsOf(ledger, id);
    var a, v := ArmedOf(ledger, id), VerdictsOf(ledger, id);
    LatestIsLast(ledger, id);
    ReadsAreWhole(ledger, id);
    OneDecisiveVerdict(ledger, id);
    DecisionSettles(a, v);
  }

  lemma DecisionSettles(a: seq<Armed>, v: seq<LensVerdict>)
    requires |a| > 0 && DecisionFacts(a, v)
    ensures AggregateOf(AnyDecisive(v))
         == if SomeChangesNeeded(v) then Some(ChangesNeeded)
            else if AllReported(v, a[|a| - 1].lenses) then Some(Ready)
            else None
  {
    hide AnyDecisive, DecisiveVerdict, AllReported;
    DecisiveReads(v, |a|);
    if Undecided(v) {
      assert !SomeChangesNeeded(v);
    } else {
      var i :| 0 <= i < |v| && v[i].decisive;
      assert AnyDecisive(v) == Some(v[i]);
    }
  }

  // ---- The round cap ---------------------------------------------------------------------

  // What the gate sees of the chain's review at place n.
  lemma ChainReviewReads(ledger: Ledger, key: ChainKey, n: nat)
    requires LedgerOk(ledger) && n < |ReviewOrder(ledger, key)|
    ensures var id := ReviewOrder(ledger, key)[n];
            var a := ArmedOf(ledger, id);
            && |a| > 0
            && ChainReviewOf(ledger, id)
               == [ChainReview(id, a[|a| - 1].tier, n + 1, AggregateOf(AnyDecisive(ReviewVerdicts(ledger, id))), a[0].sha)]
  {
    hide LedgerOk, ArmedOf, VerdictsOf, PushbacksOf, ReviewOrder;
    var id := ReviewOrder(ledger, key)[n];
    ChainFactsOf(ledger, key);
    assert |ArmedOf(ledger, id)| > 0;
    DecisionReads(ledger, id);
    GenerationsOf(ledger, id);
  }

  // The gate's one row for a review says what the whole review says.
  ghost predicate RowFits(ledger: Ledger, id: ReviewId) {
    && |ChainReviewOf(ledger, id)| == 1
    && (ChainReviewOf(ledger, id)[0].verdict == Some(ChangesNeeded) <==> ReachedChangesNeeded(ledger, id))
  }

  ghost predicate RowsFit(ledger: Ledger, order: seq<ReviewId>) {
    forall n :: 0 <= n < |order| ==> RowFits(ledger, order[n])
  }

  lemma ChainRowsFit(ledger: Ledger, key: ChainKey)
    requires LedgerOk(ledger)
    ensures RowsFit(ledger, ReviewOrder(ledger, key))
  {
    hide LedgerOk, ReviewOrder, ChainReviewOf, ArmedOf, ReviewVerdicts, AnyDecisive;
    forall n | 0 <= n < |ReviewOrder(ledger, key)| ensures RowFits(ledger, ReviewOrder(ledger, key)[n]) {
      ChainReviewReads(ledger, key, n);
    }
  }

  lemma TrailingReviewsGrow(rows: seq<ChainReview>, last: ChainReview)
    ensures TrailingReviews(rows + [last]) == if last.verdict == Some(ChangesNeeded) then 1 + TrailingReviews(rows) else 0
  {
    assert (rows + [last])[..|rows|] == rows;
  }

  lemma {:induction false} TrailingCountsAgree(ledger: Ledger, order: seq<ReviewId>)
    requires RowsFit(ledger, order)
    ensures TrailingReviews(ChainReviewsOf(ledger, order)) == TrailingRun(ledger, order)
  {
    hide ChainReviewOf, ReachedChangesNeeded;
    if |order| > 0 {
      var init, last := order[..|order| - 1], ChainReviewOf(ledger, order[|order| - 1]);
      TrailingCountsAgree(ledger, init);
      assert RowFits(ledger, order[|order| - 1]);
      assert last == [last[0]];
      TrailingReviewsGrow(ChainReviewsOf(ledger, init), last[0]);
    }
  }

  // The gate reads one row per review of the chain, in the chain's order.
  lemma {:induction false} RowOfEachReview(ledger: Ledger, order: seq<ReviewId>)
    requires RowsFit(ledger, order)
    ensures |ChainReviewsOf(ledger, order)| == |order|
    ensures forall k :: 0 <= k < |order| ==> ChainReviewsOf(ledger, order)[k] == ChainReviewOf(ledger, order[k])[0]
  {
    hide ChainReviewOf, ReachedChangesNeeded;
    if |order| > 0 {
      RowOfEachReview(ledger, order[..|order| - 1]);
      assert RowFits(ledger, order[|order| - 1]);
    }
  }

  // The gate's cap, read from each review's newest generation, is the
  // commission's cap, read from any decisive verdict.
  lemma CapComputationsAgree(steps: seq<Step>, key: ChainKey)
    requires Legal(START, steps)
    ensures var ledger := After(START, steps).ledger;
            && TrailingReviews(ChainReviews(ledger, key)) == TrailingRun(ledger, ReviewOrder(ledger, key))
            && (ChainAtCap(ChainReviews(ledger, key)) <==> TrailingRun(ledger, ReviewOrder(ledger, key)) >= ROUND_CAP)
  {
    hide LedgerOk, ArmedOf, VerdictsOf, PushbacksOf;
    var ledger := After(START, steps).ledger;
    EveryLedgerIsOk(steps);
    ChainRowsFit(ledger, key);
    TrailingCountsAgree(ledger, ReviewOrder(ledger, key));
  }

  // ---- Chain bookkeeping ---------------------------------------------------------------------

  // A review belongs to one chain for life, at one place in it, and its round is
  // that place; generations, tiers and lenses only grow, and stay few enough
  // that no per-review read is ever cut.
  lemma ChainBookkeeping(steps: seq<Step>, k: nat, id: ReviewId)
    requires Legal(START, steps) && k <= |steps| && |ArmedOf(After(START, steps[..k]).ledger, id)| > 0
    ensures var a, b := ArmedOf(After(START, steps[..k]).ledger, id), ArmedOf(After(START, steps).ledger, id);
            && a <= b && |b| <= 3
            && b[|b| - 1].chainKey == a[0].chainKey && b[|b| - 1].round == a[0].round
            && b[|b| - 1].generation == |b| && TierRank(a[|a| - 1].tier) <= TierRank(b[|b| - 1].tier)
            && SubLenses(a[|a| - 1].lenses, b[|b| - 1].lenses)
            && OnlyPlace(After(START, steps).ledger, id, b[0].chainKey, b[0].round - 1)
  {
    hide LedgerOk, ArmedOf, OnlyPlace, TierRank, SubLenses, Legal, After;
    RunExtends(steps, k);
    EveryLedgerIsOk(steps);
    LaterGenerations(After(START, steps[..k]).ledger, After(START, steps).ledger, id);
  }

  lemma LaterGenerations(s: Ledger, t: Ledger, id: ReviewId)
    requires |s| <= |t| && t[..|s|] == s && LedgerOk(t) && |ArmedOf(s, id)| > 0
    ensures var a, b := ArmedOf(s, id), ArmedOf(t, id);
            && a <= b && |b| <= 3
            && b[|b| - 1].chainKey == a[0].chainKey && b[|b| - 1].round == a[0].round
            && b[|b| - 1].generation == |b| && TierRank(a[|a| - 1].tier) <= TierRank(b[|b| - 1].tier)
            && SubLenses(a[|a| - 1].lenses, b[|b| - 1].lenses)
            && OnlyPlace(t, id, b[0].chainKey, b[0].round - 1)
  {
    hide LedgerOk, ArmedOf, OnlyPlace, TierRank, SubLenses, ArmedFacts;
    ReadsExtend(s, t, id);
    GenerationsOf(t, id);
    LastGeneration(id, ArmedOf(t, id));
    LensesGrow(s, t, id);
    PlaceInChain(t, id);
    assert ArmedOf(s, id)[0] == ArmedOf(t, id)[0];
  }

  lemma LastGeneration(id: ReviewId, b: seq<Armed>)
    requires ArmedFacts(id, b) && |b| > 0
    ensures b[|b| - 1].chainKey == b[0].chainKey && b[|b| - 1].round == b[0].round
    ensures b[|b| - 1].generation == |b| && |b| <= 3
  {
    RisingTiersAreFew(b);
  }

  // The review sits at this place of this chain and nowhere else.
  ghost predicate OnlyPlace(ledger: Ledger, id: ReviewId, key: ChainKey, place: int) {
    && 0 <= place < |ReviewOrder(ledger, key)| && ReviewOrder(ledger, key)[place] == id
    && (forall n :: 0 <= n < |ReviewOrder(ledger, key)| && ReviewOrder(ledger, key)[n] == id ==> n == place)
    && (forall other :: other != key ==> id !in ReviewOrder(ledger, other))
  }

  lemma PlaceInChain(ledger: Ledger, id: ReviewId)
    requires LedgerOk(ledger) && |ArmedOf(ledger, id)| > 0
    ensures OnlyPlace(ledger, id, ArmedOf(ledger, id)[0].chainKey, ArmedOf(ledger, id)[0].round - 1)
  {
    hide LedgerOk, ArmedOf, ReviewOrder;
    var key := ArmedOf(ledger, id)[0].chainKey;
    ChainFactsOf(ledger, key);
    assert id in ReviewOrder(ledger, key);
    forall other | other != key ensures id !in ReviewOrder(ledger, other) {
      ChainFactsOf(ledger, other);
    }
  }

  // ---- What a revision caught --------------------------------------------------------------------

  lemma {:induction false} IndexOfDistinct(order: seq<ReviewId>, n: nat)
    requires n < |order| && forall i, j :: 0 <= i < j < |order| ==> order[i] != order[j]
    ensures IndexOfReview(order, order[n]) == n
  {
    if n > 0 {
      IndexOfDistinct(order[1..], n - 1);
    }
  }

  lemma {:induction false} BlockingIsCounted(v: seq<LensVerdict>, lenses: seq<Lens>)
    requires forall i, j :: 0 <= i < j < |v| ==> v[i].lens != v[j].lens
    ensures BlockingByLens(v, lenses) > 0 <==>
            exists i :: 0 <= i < |v| && v[i].lens in lenses && BlockingFindings(v[i].findings) > 0
  {
    if |lenses| > 0 {
      BlockingIsCounted(v, lenses[1..]);
      LatestLensIsUnique(v, lenses[0]);
      var latest := LatestLensVerdict(v, lenses[0]);
      if latest.Some? {
        var i :| 0 <= i < |v| && v[i].lens == lenses[0];
        assert latest.value == v[i];
      }
      assert lenses == [lenses[0]] + lenses[1..];
    }
  }

  // A revision caught something exactly when it is not its chain's first round
  // and the round before it reached CHANGES-NEEDED.
  lemma CaughtMeansSuperseded(steps: seq<Step>, id: ReviewId)
    requires Legal(START, steps) && |ArmedOf(After(START, steps).ledger, id)| > 0
    ensures var ledger := After(START, steps).ledger;
            var armed := ArmedOf(ledger, id)[0];
            var order := ReviewOrder(ledger, armed.chainKey);
            && 1 <= armed.round <= |order|
            && (CaughtByRevision(ledger, armed.chainKey, id) > 0 <==>
                  armed.round > 1 && ReachedChangesNeeded(ledger, order[armed.round - 2]))
  {
    hide LedgerOk, ArmedOf, VerdictsOf, PushbacksOf;
    var ledger := After(START, steps).ledger;
    EveryLedgerIsOk(steps);
    PlaceInChain(ledger, id);
    var armed := ArmedOf(ledger, id)[0];
    var order := ReviewOrder(ledger, armed.chainKey);
    DistinctIsDistinct(IdsOf(ChainOf(ledger, armed.chainKey)));
    IndexOfDistinct(order, armed.round - 1);
    if armed.round > 1 {
      var previous := order[armed.round - 2];
      ChainFactsOf(ledger, armed.chainKey);
      assert |ArmedOf(ledger, previous)| > 0;
      if ReachedChangesNeeded(ledger, previous) {
        ChangesNeededIsCounted(ledger, previous);
      }
    }
  }

  lemma ChangesNeededIsCounted(ledger: Ledger, id: ReviewId)
    requires LedgerOk(ledger) && |ArmedOf(ledger, id)| > 0 && ReachedChangesNeeded(ledger, id)
    ensures BlockingByLens(ReviewVerdicts(ledger, id), LENSES) > 0
  {
    hide LedgerOk, ArmedOf, VerdictsOf, PushbacksOf;
    FactsOf(ledger, id);
    ReadsAreWhole(ledger, id);
    DecisionReads(ledger, id);
    var v := VerdictsOf(ledger, id);
    var i :| 0 <= i < |v| && v[i].verdict.ChangesNeeded?;
    assert BlockingFindings(v[i].findings) > 0;
    BlockingIsCounted(v, LENSES);
  }

  // ---- Replays -----------------------------------------------------------------------------------

  // A recorded result that a request repeats exactly.
  ghost predicate Settled(s: State, req: ResultRequest, v: LensVerdict) {
    var id := ReviewId(req.sha.briefing, req.repo);
    var a, job := ArmedOf(s.ledger, id), LensJob(id, req.lens);
    && |a| > 0 && req.lens in a[|a| - 1].lenses && req.job == job
    && job in s.jobs && s.jobs[job].Some? && EvidenceHolds(req.findings, req.verdict, s.jobs[job].value)
    && v in VerdictsOf(s.ledger, id) && v.lens == req.lens && v.verdict == req.verdict && v.findings == req.findings
  }

  lemma SettledConverges(s: State, req: ResultRequest, v: LensVerdict)
    requires LedgerOk(s.ledger) && Settled(s, req, v)
    ensures Submitting(s.ledger, s.jobs, req) == (Ok(ViewOf(v)), [])
  {
    hide LedgerOk, ArmedOf, VerdictsOf, PushbacksOf, EvidenceHolds;
    var id := ReviewId(req.sha.briefing, req.repo);
    LatestIsLast(s.ledger, id);
    FactsOf(s.ledger, id);
    ReadsAreWhole(s.ledger, id);
    LatestLensIsUnique(VerdictsOf(s.ledger, id), req.lens);
  }

  lemma ConvergedIsSettled(s: State, req: ResultRequest) returns (v: LensVerdict)
    requires LedgerOk(s.ledger)
    requires Submitting(s.ledger, s.jobs, req).0.Ok? && Submitting(s.ledger, s.jobs, req).1 == []
    ensures Settled(s, req, v)
  {
    hide LedgerOk, ArmedOf, VerdictsOf, PushbacksOf, EvidenceHolds, LatestLensVerdict;
    var id := ReviewId(req.sha.briefing, req.repo);
    LatestIsLast(s.ledger, id);
    GenerationsOf(s.ledger, id);
    v := LatestLensVerdict(ReviewVerdicts(s.ledger, id), req.lens).value;
    LatestIsRecorded(s.ledger, id, req.lens);
  }

  lemma LatestIsRecorded(ledger: Ledger, id: ReviewId, lens: Lens)
    requires LedgerOk(ledger) && LatestLensVerdict(ReviewVerdicts(ledger, id), lens).Some?
    ensures var v := LatestLensVerdict(ReviewVerdicts(ledger, id), lens).value;
            v in VerdictsOf(ledger, id) && v.lens == lens
  {
    hide LedgerOk, ArmedOf, VerdictsOf, PushbacksOf;
    FactsOf(ledger, id);
    ReadsAreWhole(ledger, id);
    var v := VerdictsOf(ledger, id);
    LatestLensIsUnique(v, lens);
    var i :| 0 <= i < |v| && v[i].lens == lens;
  }

  lemma SettledForEver(s: State, t: State, req: ResultRequest, v: LensVerdict)
    requires Extends(s, t) && LedgerOk(t.ledger) && Settled(s, req, v)
    ensures Settled(t, req, v)
  {
    hide LedgerOk, ArmedOf, VerdictsOf, PushbacksOf, EvidenceHolds;
    var id := ReviewId(req.sha.briefing, req.repo);
    ReadsExtend(s.ledger, t.ledger, id);
    LensesGrow(s.ledger, t.ledger, id);
    var i :| 0 <= i < |VerdictsOf(s.ledger, id)| && VerdictsOf(s.ledger, id)[i] == v;
    assert VerdictsOf(t.ledger, id)[i] == v;
  }

  // A result that was accepted once converges for ever: whatever happened since,
  // repeating it appends nothing and answers exactly as it was recorded.
  lemma RepeatedResultConverges(steps: seq<Step>, k: nat, req: ResultRequest)
    requires Legal(START, steps) && k < |steps| && steps[k] == Submit(req)
    requires Submitting(After(START, steps[..k]).ledger, After(START, steps[..k]).jobs, req).0.Ok?
    ensures var s, t := After(START, steps[..k]), After(START, steps);
            Submitting(t.ledger, t.jobs, req) == (Submitting(s.ledger, s.jobs, req).0, [])
  {
    hide LedgerOk, Submitting, Settled, Legal, After, Apply, Extends, NewEvents;
    RunExtends(steps, k);
    RunExtends(steps, k + 1);
    var s, m, t := After(START, steps[..k]), After(START, steps[..k + 1]), After(START, steps);
    EveryLedgerIsOk(steps[..k + 1]);
    EveryLedgerIsOk(steps);
    AcceptedResultIsRecorded(steps[..k], req);
    OneMore(steps, k);
    var v := ConvergedIsSettled(m, req);
    SettledConverges(m, req, v);
    SettledForEver(m, t, req, v);
    SettledConverges(t, req, v);
  }

  lemma LensesGrow(s: Ledger, t: Ledger, id: ReviewId)
    requires LedgerOk(t) && ArmedOf(s, id) <= ArmedOf(t, id) && |ArmedOf(s, id)| > 0
    ensures var a, b := ArmedOf(s, id), ArmedOf(t, id);
            TierRank(a[|a| - 1].tier) <= TierRank(b[|b| - 1].tier)
            && SubLenses(a[|a| - 1].lenses, b[|b| - 1].lenses)
  {
    hide LedgerOk, ArmedOf, TierRank, TierLenses;
    GenerationsOf(t, id);
    var a, b := ArmedOf(s, id), ArmedOf(t, id);
    assert a[|a| - 1] == b[|a| - 1];
    assert TierRank(a[|a| - 1].tier) <= TierRank(b[|b| - 1].tier);
    RaisedLensesAreTheTiers(a[|a| - 1].tier, b[|b| - 1].tier);
  }

  // The first acceptance is itself what later repeats converge to.
  lemma AcceptedResultIsRecorded(steps: seq<Step>, req: ResultRequest)
    requires Legal(START, steps)
    requires Submitting(After(START, steps).ledger, After(START, steps).jobs, req).0.Ok?
    ensures var s := After(START, steps);
            var t := Apply(s, Submit(req));
            && Submitting(t.ledger, t.jobs, req).0 == Submitting(s.ledger, s.jobs, req).0
            && Submitting(t.ledger, t.jobs, req).1 == []
  {
    hide LedgerOk, ArmedOf, VerdictsOf, PushbacksOf;
    var s := After(START, steps);
    var t := Apply(s, Submit(req));
    var id := ReviewId(req.sha.briefing, req.repo);
    EveryLedgerIsOk(steps);
    StepKeepsLedger(s, Submit(req));
    LatestIsLast(s.ledger, id);
    LatestIsLast(t.ledger, id);
    var appended := Submitting(s.ledger, s.jobs, req).1;
    if appended == [] {
      assert t.ledger == s.ledger;
    } else {
      var x := NewVerdict(s.ledger, ArmedBySha(s.ledger, req.sha, req.repo).value, req);
      Appended(s.ledger, VerdictEvent(x));
      FactsOf(t.ledger, id);
      NewVerdictSettlesRightly(s.ledger, s.jobs, req);
      ReadsAreWhole(t.ledger, id);
      LatestLensIsUnique(VerdictsOf(t.ledger, id), req.lens);
      var v := VerdictsOf(t.ledger, id);
      assert v[|v| - 1] == x;
    }
  }

  // Commissioning a briefing again at a tier no higher than one it was already
  // commissioned at arms nothing, in any later state and under any title.
  lemma RepeatedCommissionArmsNothing(steps: seq<Step>, k: nat, again: CommissionRequest, headSha: Option<string>)
    requires Legal(START, steps) && k < |steps| && steps[k].Commission?
    requires Arming(After(START, steps[..k]).ledger, steps[k].req, steps[k].headSha).0.Ok?
    requires again.briefing == steps[k].req.briefing && again.repo == steps[k].req.repo
    requires TierRank(again.tier) <= TierRank(steps[k].req.tier)
    ensures var t := After(START, steps).ledger;
            && Arming(t, again, headSha).1 == []
            && Arming(t, again, headSha).0.Ok?
            && TierRank(Arming(t, again, headSha).0.value.armed.tier) >= TierRank(steps[k].req.tier)
  {
    hide LedgerOk, ArmedOf, VerdictsOf, PushbacksOf, TierRank, Arming, SubLenses, Legal, After;
    var id := ReviewId(again.briefing, again.repo);
    var m, t := After(START, steps[..k + 1]).ledger, After(START, steps).ledger;
    CommissionedAt(steps, k);
    RunExtends(steps, k + 1);
    EveryLedgerIsOk(steps);
    ReadsExtend(m, t, id);
    LensesGrow(m, t, id);
    ConvergedCommission(t, again, headSha);
  }

  // The state right after an accepted commission holds it at its tier or above.
  lemma CommissionedAt(steps: seq<Step>, k: nat)
    requires Legal(START, steps) && k < |steps| && steps[k].Commission?
    requires Arming(After(START, steps[..k]).ledger, steps[k].req, steps[k].headSha).0.Ok?
    ensures var a := ArmedOf(After(START, steps[..k + 1]).ledger, ReviewId(steps[k].req.briefing, steps[k].req.repo));
            |a| > 0 && TierRank(a[|a| - 1].tier) >= TierRank(steps[k].req.tier)
  {
    hide LedgerOk, ArmedOf, TierRank, Arming, Extends, Legal, After;
    RunExtends(steps, k);
    var s := After(START, steps[..k]).ledger;
    EveryLedgerIsOk(steps[..k]);
    CommissionReaches(s, steps[k].req, steps[k].headSha);
    OneMore(steps, k);
  }

  lemma ConvergedCommission(ledger: Ledger, req: CommissionRequest, headSha: Option<string>)
    requires LedgerOk(ledger)
    requires var a := ArmedOf(ledger, ReviewId(req.briefing, req.repo));
             |a| > 0 && TierRank(req.tier) <= TierRank(a[|a| - 1].tier)
    ensures var a := ArmedOf(ledger, ReviewId(req.briefing, req.repo));
            Arming(ledger, req, headSha) == (Ok(Commissioned(a[|a| - 1], false)), [])
  {
    hide LedgerOk, ArmedOf, VerdictsOf, TierRank;
    LatestIsLast(ledger, ReviewId(req.briefing, req.repo));
  }

  // An accepted commission leaves its review at the requested tier or above.
  lemma CommissionReaches(ledger: Ledger, req: CommissionRequest, headSha: Option<string>)
    requires LedgerOk(ledger) && Arming(ledger, req, headSha).0.Ok?
    ensures var id := ReviewId(req.briefing, req.repo);
            var a := ArmedOf(ledger + Arming(ledger, req, headSha).1, id);
            |a| > 0 && TierRank(a[|a| - 1].tier) >= TierRank(req.tier)
  {
    hide LedgerOk, ArmedOf, VerdictsOf, PushbacksOf;
    var id := ReviewId(req.briefing, req.repo);
    var appended := Arming(ledger, req, headSha).1;
    LatestIsLast(ledger, id);
    if appended == [] {
      assert ledger + appended == ledger;
    } else {
      ArmingIsSound(ledger, req, headSha);
      Appended(ledger, appended[0]);
      var a := ArmedOf(ledger + appended, id);
      assert a[|a| - 1] == appended[0].armed;
    }
  }

  // What repeating a push-back answers when it appends nothing.
  ghost function RepeatAnswer(t: Ledger, req: PushbackRequest): Result<Pushback, Code> {
    var id := ReviewId(req.sha.briefing, req.repo);
    var held := GenerationPushback(PushbacksOf(t, id), |ArmedOf(t, id)|);
    if AggregateOf(AnyDecisive(VerdictsOf(t, id))) == Some(Ready) then Err(AlreadyReady)
    else if held.Some? && held.value.reason == req.reason then Ok(held.value)
    else Err(PushbackConflict)
  }

  // Repeating an accepted push-back appends again exactly when a tier raise has
  // opened a generation without one and the review is not READY. In the same
  // generation it answers as it first did, unless the review is READY by now.
  lemma RepeatedPushback(steps: seq<Step>, k: nat, req: PushbackRequest)
    requires Legal(START, steps) && k < |steps| && steps[k] == PushBack(req)
    requires PushingBack(After(START, steps[..k]).ledger, req).0.Ok?
    ensures var s, t := After(START, steps[..k]).ledger, After(START, steps).ledger;
            var id := ReviewId(req.sha.briefing, req.repo);
            && |ArmedOf(t, id)| > 0
            && (PushingBack(t, req).1 != [] <==>
                  && (forall i :: 0 <= i < |PushbacksOf(t, id)| ==> PushbacksOf(t, id)[i].generation != |ArmedOf(t, id)|)
                  && AggregateOf(AnyDecisive(VerdictsOf(t, id))) != Some(Ready))
            && (PushingBack(t, req).1 == [] ==> PushingBack(t, req).0 == RepeatAnswer(t, req))
            && (|ArmedOf(t, id)| == |ArmedOf(s, id)| ==>
                  && PushingBack(t, req).1 == []
                  && (PushingBack(t, req).0 == Err(AlreadyReady) || PushingBack(t, req).0 == PushingBack(s, req).0))
  {
    hide Legal, After, LedgerOk, PushingBack, RepeatAnswer, PushbacksOf, ArmedOf, VerdictsOf, AnyDecisive;
    RunExtends(steps, k);
    RunExtends(steps, k + 1);
    OneMore(steps, k);
    EveryLedgerIsOk(steps[..k]);
    EveryLedgerIsOk(steps);
    RepeatedLater(After(START, steps[..k]).ledger, After(START, steps).ledger, req);
  }

  lemma RepeatedLater(s: Ledger, t: Ledger, req: PushbackRequest)
    requires LedgerOk(s) && LedgerOk(t) && PushingBack(s, req).0.Ok?
    requires var m := s + PushingBack(s, req).1; |m| <= |t| && t[..|m|] == m
    ensures var id := ReviewId(req.sha.briefing, req.repo);
            && |ArmedOf(t, id)| > 0
            && (PushingBack(t, req).1 != [] <==>
                  && (forall i :: 0 <= i < |PushbacksOf(t, id)| ==> PushbacksOf(t, id)[i].generation != |ArmedOf(t, id)|)
                  && AggregateOf(AnyDecisive(VerdictsOf(t, id))) != Some(Ready))
            && (PushingBack(t, req).1 == [] ==> PushingBack(t, req).0 == RepeatAnswer(t, req))
            && (|ArmedOf(t, id)| == |ArmedOf(s, id)| ==>
                  && PushingBack(t, req).1 == []
                  && (PushingBack(t, req).0 == Err(AlreadyReady) || PushingBack(t, req).0 == PushingBack(s, req).0))
  {
    hide LedgerOk, PushingBack, RepeatAnswer, PushbacksOf, ArmedOf, VerdictsOf, AnyDecisive, GenerationPushback;
    var id := ReviewId(req.sha.briefing, req.repo);
    var m := s + PushingBack(s, req).1;
    assert t[..|s|] == t[..|m|][..|s|] == s;
    ReadsExtend(s, t, id);
    ReadsExtend(m, t, id);
    PushbackIsRecorded(s, req);
    PushingBackReads(t, req);
    GenerationPushbackReads(PushbacksOf(t, id), |ArmedOf(t, id)|);
    if |ArmedOf(t, id)| == |ArmedOf(s, id)| {
      var p := PushingBack(s, req).0.value;
      var i :| 0 <= i < |PushbacksOf(m, id)| && PushbacksOf(m, id)[i] == p;
      assert PushbacksOf(t, id)[i] == p;
      OnePushbackPerGeneration(t, id, i);
      RecordedAnswers(t, req, p);
    }
  }

  // What a push-back reads, in terms of the ledger.
  lemma PushingBackReads(t: Ledger, req: PushbackRequest)
    requires LedgerOk(t) && |ArmedOf(t, ReviewId(req.sha.briefing, req.repo))| > 0
    ensures var id := ReviewId(req.sha.briefing, req.repo);
            && (PushingBack(t, req).1 != [] <==>
                  && GenerationPushback(PushbacksOf(t, id), |ArmedOf(t, id)|).None?
                  && AggregateOf(AnyDecisive(VerdictsOf(t, id))) != Some(Ready))
            && (PushingBack(t, req).1 == [] ==> PushingBack(t, req).0 == RepeatAnswer(t, req))
  {
    hide LedgerOk, ArmedOf, VerdictsOf, PushbacksOf, AnyDecisive, GenerationPushback;
    var id := ReviewId(req.sha.briefing, req.repo);
    LatestIsLast(t, id);
    FactsOf(t, id);
    ReadsAreWhole(t, id);
    DecisionReads(t, id);
    GenerationsOf(t, id);
  }

  lemma RecordedAnswers(t: Ledger, req: PushbackRequest, p: Pushback)
    requires var id := ReviewId(req.sha.briefing, req.repo);
             GenerationPushback(PushbacksOf(t, id), |ArmedOf(t, id)|) == Some(p) && p.reason == req.reason
    ensures RepeatAnswer(t, req) == Err(AlreadyReady) || RepeatAnswer(t, req) == Ok(p)
  {
    hide PushbacksOf, ArmedOf, VerdictsOf, AnyDecisive, GenerationPushback;
  }

  lemma OnePushbackPerGeneration(ledger: Ledger, id: ReviewId, i: nat)
    requires LedgerOk(ledger) && i < |PushbacksOf(ledger, id)|
    ensures GenerationPushback(PushbacksOf(ledger, id), PushbacksOf(ledger, id)[i].generation) == Some(PushbacksOf(ledger, id)[i])
  {
    hide LedgerOk, ArmedOf, VerdictsOf, PushbacksOf;
    FactsOf(ledger, id);
    var rows := PushbacksOf(ledger, id);
    GenerationPushbackReads(rows, rows[i].generation);
    var j :| 0 <= j < |rows| && rows[j] == GenerationPushback(rows, rows[i].generation).value;
    assert !(i < j) && !(j < i);
  }

  // An accepted push-back is in the ledger, for the newest generation and with
  // the reason it was sent with.
  lemma PushbackIsRecorded(ledger: Ledger, req: PushbackRequest)
    requires LedgerOk(ledger) && PushingBack(ledger, req).0.Ok?
    ensures var id := ReviewId(req.sha.briefing, req.repo);
            var p := PushingBack(ledger, req).0.value;
            && |ArmedOf(ledger, id)| > 0 && p in PushbacksOf(ledger + PushingBack(ledger, req).1, id)
            && p.generation == |ArmedOf(ledger, id)| && p.reason == req.reason
  {
    hide LedgerOk, ArmedOf, VerdictsOf, PushbacksOf, AnyDecisive, GenerationPushback, DecisiveVerdict;
    var id := ReviewId(req.sha.briefing, req.repo);
    var appended := PushingBack(ledger, req).1;
    LatestIsLast(ledger, id);
    GenerationsOf(ledger, id);
    if appended == [] {
      PushbackWasThere(ledger, id);
      assert ledger + appended == ledger;
    } else {
      Appended(ledger, appended[0]);
      var rows := PushbacksOf(ledger + appended, id);
      assert rows[|rows| - 1] == PushingBack(ledger, req).0.value;
    }
  }

  lemma PushbackWasThere(ledger: Ledger, id: ReviewId)
    requires LedgerOk(ledger)
    ensures ReviewPushbacks(ledger, id) == PushbacksOf(ledger, id)
    ensures var held := GenerationPushback(PushbacksOf(ledger, id), |ArmedOf(ledger, id)|);
            held.Some? ==> held.value in PushbacksOf(ledger, id) && held.value.generation == |ArmedOf(ledger, id)|
  {
    hide LedgerOk, ArmedOf, VerdictsOf, PushbacksOf;
    FactsOf(ledger, id);
    ReadsAreWhole(ledger, id);
    GenerationPushbackReads(PushbacksOf(ledger, id), |ArmedOf(ledger, id)|);
  }

  // ---- A push-back that is recorded twice ---------------------------------------------

  const BRIEF: CommissionRequest := CommissionRequest("repo", "title", "briefing", Low, "why")
  const RAISED: CommissionRequest := BRIEF.(tier := High)
  const OBJECTION: PushbackRequest := PushbackRequest("repo", BriefingSha("briefing"), "reason", "gru")

  // Commission at low, push back, raise to high.
  function RaisedAfterPushback(): seq<Step> {
    [Commission(BRIEF, None), PushBack(OBJECTION), Commission(RAISED, None)]
  }

  lemma FirstCommissionArms()
    ensures LedgerOk([])
    ensures Arming([], BRIEF, None).1 == [ArmedEvent(FirstArmed([], BRIEF, None))]
  {
    EveryLedgerIsOk([]);
    hide LedgerOk;
    FirstArmingIsSound([], BRIEF, None);
  }

  lemma FirstPushbackRecords(ledger: Ledger)
    requires LedgerOk(ledger) && ledger == [ArmedEvent(FirstArmed([], BRIEF, None))]
    ensures PushingBack(ledger, OBJECTION).0.Ok?
    ensures PushingBack(ledger, OBJECTION).1
         == [PushbackEvent(FIRST_PUSHBACK)]
  {
    hide LedgerOk;
    LatestIsLast(ledger, ReviewId("briefing", "repo"));
    assert ledger == [] + [ArmedEvent(FirstArmed([], BRIEF, None))];
    Appended([], ArmedEvent(FirstArmed([], BRIEF, None)));
  }

  lemma RaiseAfterPushbackArms(first: Ledger, p: Pushback)
    requires LedgerOk(first + [PushbackEvent(p)]) && first == [ArmedEvent(FirstArmed([], BRIEF, None))]
    ensures Arming(first + [PushbackEvent(p)], RAISED, None).1 == [ArmedEvent(RaisedArmed(FirstArmed([], BRIEF, None), RAISED))]
  {
    hide LedgerOk, Arming;
    var id := ReviewId("briefing", "repo");
    assert first == [] + [ArmedEvent(FirstArmed([], BRIEF, None))];
    Appended([], ArmedEvent(FirstArmed([], BRIEF, None)));
    Appended(first, PushbackEvent(p));
    assert ArmedOf(first + [PushbackEvent(p)], id) == [FirstArmed([], BRIEF, None)];
    assert VerdictsOf(first + [PushbackEvent(p)], id) == [];
    RaisingIsSound(first + [PushbackEvent(p)], RAISED, None);
  }

  lemma RunStaysLegal(steps: seq<Step>, k: nat)
    requires k < |steps| && Legal(START, steps[..k]) && !steps[k].Dispatch?
    ensures Legal(START, steps[..k + 1])
    ensures After(START, steps[..k + 1]).ledger == After(START, steps[..k]).ledger + NewEvents(After(START, steps[..k]), steps[k])
  {
    hide NewEvents;
    assert steps[..k + 1][..k] == steps[..k];
  }

  lemma CommissionedRun()
    ensures var run := RaisedAfterPushback()[..1];
            && Legal(START, run) && After(START, run).ledger == [ArmedEvent(FirstArmed([], BRIEF, None))]
            && LedgerOk(After(START, run).ledger) && PushingBack(After(START, run).ledger, OBJECTION).0.Ok?
  {
    hide LedgerOk, Arming, PushingBack, FirstArmed, Submitting, Admitting;
    FirstCommissionArms();
    assert RaisedAfterPushback()[..0] == [];
    RunStaysLegal(RaisedAfterPushback(), 0);
    EveryLedgerIsOk(RaisedAfterPushback()[..1]);
    FirstPushbackRecords(After(START, RaisedAfterPushback()[..1]).ledger);
  }

  const FIRST_PUSHBACK: Pushback := Pushback(ReviewId("briefing", "repo"), BriefingSha("briefing"), 1, "reason", "gru")

  lemma PushedBackRun()
    ensures var run := RaisedAfterPushback()[..2];
            && Legal(START, run) && LedgerOk(After(START, run).ledger)
            && After(START, run).ledger == [ArmedEvent(FirstArmed([], BRIEF, None)), PushbackEvent(FIRST_PUSHBACK)]
  {
    hide LedgerOk, Arming, PushingBack, FirstArmed, Submitting, Admitting;
    CommissionedRun();
    FirstPushbackRecords(After(START, RaisedAfterPushback()[..1]).ledger);
    RunStaysLegal(RaisedAfterPushback(), 1);
    EveryLedgerIsOk(RaisedAfterPushback()[..2]);
  }

  lemma RaisedRunHolds()
    ensures Legal(START, RaisedAfterPushback())
    ensures After(START, RaisedAfterPushback()).ledger
         == [ArmedEvent(FirstArmed([], BRIEF, None)), PushbackEvent(FIRST_PUSHBACK),
             ArmedEvent(RaisedArmed(FirstArmed([], BRIEF, None), RAISED))]
  {
    hide LedgerOk, Arming, PushingBack, FirstArmed, RaisedArmed, Submitting, Admitting;
    PushedBackRun();
    assert [ArmedEvent(FirstArmed([], BRIEF, None))] + [PushbackEvent(FIRST_PUSHBACK)]
        == After(START, RaisedAfterPushback()[..2]).ledger;
    RaiseAfterPushbackArms([ArmedEvent(FirstArmed([], BRIEF, None))], FIRST_PUSHBACK);
    RunStaysLegal(RaisedAfterPushback(), 2);
    assert RaisedAfterPushback()[..3] == RaisedAfterPushback();
  }

  // Repeating a push-back is not always a replay: after a raise the same request,
  // accepted before, is recorded a second time, for the second generation.
  lemma RaiseMakesPushbackRepeat()
    ensures Legal(START, RaisedAfterPushback()) && RaisedAfterPushback()[1] == PushBack(OBJECTION)
    ensures PushingBack(After(START, RaisedAfterPushback()[..1]).ledger, OBJECTION).0.Ok?
    ensures PushingBack(After(START, RaisedAfterPushback()).ledger, OBJECTION).1
         == [PushbackEvent(FIRST_PUSHBACK.(generation := 2))]
  {
    hide LedgerOk, Arming, PushingBack, RaisedArmed;
    RaisedRunHolds();
    CommissionedRun();
    EveryLedgerIsOk(RaisedAfterPushback());
    SecondPushbackRecords(After(START, RaisedAfterPushback()).ledger);
  }

  lemma SecondPushbackRecords(t: Ledger)
    requires LedgerOk(t)
    requires t == [ArmedEvent(FirstArmed([], BRIEF, None)),
                   PushbackEvent(FIRST_PUSHBACK),
                   ArmedEvent(RaisedArmed(FirstArmed([], BRIEF, None), RAISED))]
    ensures PushingBack(t, OBJECTION).1
         == [PushbackEvent(FIRST_PUSHBACK.(generation := 2))]
  {
    hide LedgerOk, ArmedOf, VerdictsOf, PushbacksOf;
    var id := ReviewId("briefing", "repo");
    LatestIsLast(t, id);
    ThreeEvents(t[0], t[1], t[2]);
    assert t == [t[0], t[1], t[2]];
    var p := t[1].pushback;
    assert PushbacksOf(t, id) == [p] && [p][..0] == [];
    assert GenerationPushback([p], 2) == GenerationPushback([], 2);
  }

  lemma ThreeEvents(a: Event, b: Event, c: Event)
    requires a.ArmedEvent? && b.PushbackEvent? && c.ArmedEvent?
    requires a.armed.reviewId == b.pushback.reviewId == c.armed.reviewId
    ensures ArmedOf([a, b, c], a.armed.reviewId) == [a.armed, c.armed]
    ensures PushbacksOf([a, b, c], a.armed.reviewId) == [b.pushback]
    ensures VerdictsOf([a, b, c], a.armed.reviewId) == []
  {
    hide ArmedOf, VerdictsOf, PushbacksOf;
    var id := a.armed.reviewId;
    NoEvents(id);
    assert [a] == [] + [a] && [a, b] == [a] + [b] && [a, b, c] == [a, b] + [c];
    Appended([], a);
    Appended([a], b);
    Appended([a, b], c);
    assert ArmedOf([a, b], id) == [a.armed];
  }

  lemma NoEvents(id: ReviewId)
    ensures ArmedOf([], id) == [] && VerdictsOf([], id) == [] && PushbacksOf([], id) == []
  {
  }

  // ---- The dispatch gate --------------------------------------------------------------------------

  ghost predicate EveryLensSaysReady(ledger: Ledger, id: ReviewId) {
    var a := ArmedOf(ledger, id);
    |a| > 0 && EveryLensReady(ReviewVerdicts(ledger, id), a[|a| - 1].lenses)
  }

  ghost predicate PushedBackNow(ledger: Ledger, id: ReviewId, reason: string) {
    exists i :: 0 <= i < |PushbacksOf(ledger, id)|
                && PushbacksOf(ledger, id)[i].generation == |ArmedOf(ledger, id)|
                && PushbacksOf(ledger, id)[i].reason == reason
  }

  lemma ReadyMeansEveryLens(ledger: Ledger, id: ReviewId)
    requires LedgerOk(ledger) && |ArmedOf(ledger, id)| > 0
    requires AggregateOf(AnyDecisive(ReviewVerdicts(ledger, id))) == Some(Ready)
    ensures EveryLensSaysReady(ledger, id)
  {
    hide LedgerOk, ArmedOf, VerdictsOf, PushbacksOf;
    FactsOf(ledger, id);
    ReadsAreWhole(ledger, id);
    DecisionReads(ledger, id);
    var a, v := ArmedOf(ledger, id), VerdictsOf(ledger, id);
    forall l | l in a[|a| - 1].lenses ensures LensReady(v, l) {
      LatestLensIsUnique(v, l);
      var i :| 0 <= i < |v| && v[i].lens == l;
      assert v[i].verdict.Ready?;
    }
  }

  // What an admission attaches is true of the ledger it was decided on.
  ghost predicate TrueProvenance(ledger: Ledger, stage: Stage, input: DispatchInput, p: Provenance) {
    var id := ReviewId(input.briefing, input.repoPath);
    var a := ArmedOf(ledger, id);
    && |a| > 0 && p.reviewId == id && p.sha == BriefingSha(input.briefing)
    && p.generation == |a| && p.round == a[0].round && p.tier == a[|a| - 1].tier
    && match p.verdict
       case SaysReady => EveryLensSaysReady(ledger, id) && p.pushbackReason.None?
       case SaysChangesNeeded => SomeChangesNeeded(VerdictsOf(ledger, id)) && !TierEnforcedAt(p.tier, stage)
       case PushedBack => p.pushbackReason.Some? && PushedBackNow(ledger, id, p.pushbackReason.value)
  }

  // What the gate is given, in terms of the ledger.
  lemma GateReads(ledger: Ledger, stage: Stage, input: DispatchInput)
    requires LedgerOk(ledger)
    ensures var id := ReviewId(input.briefing, input.repoPath);
            var a := ArmedOf(ledger, id);
            var g := GateInputOf(ledger, stage, input);
            && g.stage == stage && g.briefing == input.briefing && g.requested == input.requested
            && g.chain == ChainReviews(ledger, ChainKey(input.repoPath, input.title))
            && g.exact == Newest(a)
            && (|a| > 0 ==> g.exactVerdict == AggregateOf(AnyDecisive(ReviewVerdicts(ledger, id))))
            && (|a| > 0 ==> g.exactPushback == GenerationPushback(PushbacksOf(ledger, id), |a|))
            && (|a| == 0 ==> g.exactVerdict.None? && g.exactPushback.None?)
  {
    hide LedgerOk, ArmedOf, VerdictsOf, PushbacksOf, ChainReviews;
    var id := ReviewId(input.briefing, input.repoPath);
    LatestIsLast(ledger, id);
    GenerationsOf(ledger, id);
    FactsOf(ledger, id);
    ReadsAreWhole(ledger, id);
    if |ArmedOf(ledger, id)| > 0 { DecisionReads(ledger, id); }
  }

  lemma PushbackIsThere(ledger: Ledger, id: ReviewId)
    requires GenerationPushback(PushbacksOf(ledger, id), |ArmedOf(ledger, id)|).Some?
    ensures PushedBackNow(ledger, id, GenerationPushback(PushbacksOf(ledger, id), |ArmedOf(ledger, id)|).value.reason)
  {
    hide ArmedOf, PushbacksOf;
    var p := PushbacksOf(ledger, id);
    GenerationPushbackReads(p, |ArmedOf(ledger, id)|);
    var found := GenerationPushback(p, |ArmedOf(ledger, id)|).value;
    var i :| 0 <= i < |p| && p[i] == found;
  }

  lemma ProvenanceIsTrue(ledger: Ledger, stage: Stage, input: DispatchInput)
    requires LedgerOk(ledger) && EvaluateDispatch(ledger, stage, input).Admitted?
    requires EvaluateDispatch(ledger, stage, input).provenance.Some?
    ensures TrueProvenance(ledger, stage, input, EvaluateDispatch(ledger, stage, input).provenance.value)
  {
    hide LedgerOk, ArmedOf, VerdictsOf, PushbacksOf, ChainReviews, GateInputOf, EveryLensSaysReady, PushedBackNow,
         SomeChangesNeeded, AllReported, LatestArmed, ReviewVerdicts, AnyDecisive, GenerationPushback;
    var id := ReviewId(input.briefing, input.repoPath);
    var a := ArmedOf(ledger, id);
    GateReads(ledger, stage, input);
    GenerationsOf(ledger, id);
    if |a| > 0 {
      DecisionReads(ledger, id);
      if GenerationPushback(PushbacksOf(ledger, id), |a|).Some? {
        PushbackIsThere(ledger, id);
      }
      if AggregateOf(AnyDecisive(ReviewVerdicts(ledger, id))) == Some(Ready) {
        ReadyMeansEveryLens(ledger, id);
      }
    }
  }

  // The reviews of a chain that a stage does not enforce.
  ghost predicate ChainUnenforced(ledger: Ledger, key: ChainKey, stage: Stage) {
    forall k :: 0 <= k < |ReviewOrder(ledger, key)| ==> NewestUnenforced(ledger, ReviewOrder(ledger, key)[k], stage)
  }

  ghost predicate NewestUnenforced(ledger: Ledger, id: ReviewId, stage: Stage) {
    var a := ArmedOf(ledger, id);
    |a| > 0 && !TierEnforcedAt(a[|a| - 1].tier, stage)
  }

  // A dispatch is admitted at a stage that enforces its review's tier only when
  // every lens of the newest generation said READY, or a push-back is recorded
  // in that generation; without a review of this exact briefing, any enforced
  // review in its chain means refusal; and what is attached is true.
  lemma GateSoundness(steps: seq<Step>, stage: Stage, input: DispatchInput)
    requires Legal(START, steps) && EvaluateDispatch(After(START, steps).ledger, stage, input).Admitted?
    ensures var ledger := After(START, steps).ledger;
            var id := ReviewId(input.briefing, input.repoPath);
            var a := ArmedOf(ledger, id);
            var provenance := EvaluateDispatch(ledger, stage, input).provenance;
            && (|a| > 0 && TierEnforcedAt(a[|a| - 1].tier, stage) ==>
                  EveryLensSaysReady(ledger, id) || exists reason :: PushedBackNow(ledger, id, reason))
            && (|a| == 0 && stage != Stage1 ==> ChainUnenforced(ledger, ChainKey(input.repoPath, input.title), stage))
            && (provenance.Some? ==> TrueProvenance(ledger, stage, input, provenance.value))
  {
    hide LedgerOk, Legal;
    EveryLedgerIsOk(steps);
    AdmissionIsSound(After(START, steps).ledger, stage, input);
  }

  lemma AdmissionIsSound(ledger: Ledger, stage: Stage, input: DispatchInput)
    requires LedgerOk(ledger) && EvaluateDispatch(ledger, stage, input).Admitted?
    ensures var id := ReviewId(input.briefing, input.repoPath);
            var a := ArmedOf(ledger, id);
            var provenance := EvaluateDispatch(ledger, stage, input).provenance;
            && (|a| > 0 && TierEnforcedAt(a[|a| - 1].tier, stage) ==>
                  EveryLensSaysReady(ledger, id) || exists reason :: PushedBackNow(ledger, id, reason))
            && (|a| == 0 && stage != Stage1 ==> ChainUnenforced(ledger, ChainKey(input.repoPath, input.title), stage))
            && (provenance.Some? ==> TrueProvenance(ledger, stage, input, provenance.value))
  {
    hide LedgerOk, ArmedOf, VerdictsOf, PushbacksOf, ChainReviews, GateInputOf, EveryLensSaysReady, PushedBackNow,
         LatestArmed, ChainUnenforced, ReviewVerdicts, AnyDecisive, GenerationPushback, SomeChangesNeeded;
    var id := ReviewId(input.briefing, input.repoPath);
    GateReads(ledger, stage, input);
    var provenance := EvaluateDispatch(ledger, stage, input).provenance;
    if provenance.Some? {
      ProvenanceIsTrue(ledger, stage, input);
      assert provenance.value.verdict.PushedBack? ==> PushedBackNow(ledger, id, provenance.value.pushbackReason.value);
    } else if |ArmedOf(ledger, id)| == 0 && stage != Stage1 {
      ChainIsUnenforced(ledger, stage, input);
    }
  }

  lemma ChainIsUnenforced(ledger: Ledger, stage: Stage, input: DispatchInput)
    requires LedgerOk(ledger) && |ArmedOf(ledger, ReviewId(input.briefing, input.repoPath))| == 0 && stage != Stage1
    requires EvaluateDispatch(ledger, stage, input) == Admitted(None)
    ensures ChainUnenforced(ledger, ChainKey(input.repoPath, input.title), stage)
  {
    hide LedgerOk, ArmedOf, VerdictsOf, PushbacksOf, LatestArmed, ReviewOrder, GateInputOf, ChainReviews, NewestUnenforced;
    var key := ChainKey(input.repoPath, input.title);
    GateReads(ledger, stage, input);
    EnforcedReviewsNonempty(ChainReviews(ledger, key), stage);
    forall k | 0 <= k < |ReviewOrder(ledger, key)| ensures NewestUnenforced(ledger, ReviewOrder(ledger, key)[k], stage) {
      UnenforcedRow(ledger, key, stage, k);
    }
  }

  lemma UnenforcedRow(ledger: Ledger, key: ChainKey, stage: Stage, k: nat)
    requires LedgerOk(ledger) && k < |ReviewOrder(ledger, key)|
    ensures k < |ChainReviews(ledger, key)|
    ensures NewestUnenforced(ledger, ReviewOrder(ledger, key)[k], stage) <==> !TierEnforcedAt(ChainReviews(ledger, key)[k].tier, stage)
  {
    hide LedgerOk, ArmedOf, VerdictsOf, PushbacksOf, LatestArmed, ReviewOrder, ChainReviewOf, ChainReviewsOf, TierEnforcedAt;
    ChainRowsFit(ledger, key);
    RowOfEachReview(ledger, ReviewOrder(ledger, key));
    ChainReviewReads(ledger, key, k);
  }
}
