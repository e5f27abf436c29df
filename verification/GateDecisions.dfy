// What the dispatch gate decides on every reachable ledger, told from the
// ledger's own records (src/briefing-review/gate.ts, service.ts).
module GateDecisions {
  import opened Outcomes
  import opened BriefingTypes
  import opened BriefingLedger
  import opened BriefingGate
  import opened BriefingService
  import opened BriefingRuns
  import opened BriefingTheorems

  // ---- Told from the records ----------------------------------------------------------

  // What a review's results decide together.
  ghost function Decision(ledger: Ledger, id: ReviewId): Option<Verdict> {
    var a, v := ArmedOf(ledger, id), VerdictsOf(ledger, id);
    if |a| == 0 then None
    else if SomeChangesNeeded(v) then Some(ChangesNeeded)
    else if AllReported(v, a[|a| - 1].lenses) then Some(Ready)
    else None
  }

  // The newest generation has this push-back.
  ghost predicate PushedBackWith(ledger: Ledger, id: ReviewId, p: Pushback) {
    PushbackEvent(p) in ledger && p.reviewId == id && p.generation == |ArmedOf(ledger, id)| > 0
  }

  ghost predicate IsPushedBack(ledger: Ledger, id: ReviewId) {
    exists p :: PushedBackWith(ledger, id, p)
  }

  // Which tiers a stage holds to readiness.
  predicate Holds(stage: Stage, tier: Tier) {
    || (tier.High? && !stage.Stage1?)
    || (tier.Medium? && (stage.Stage3? || stage.Auto?))
  }

  ghost predicate HeldReview(ledger: Ledger, stage: Stage, id: ReviewId) {
    var a := ArmedOf(ledger, id);
    |a| > 0 && Holds(stage, a[|a| - 1].tier)
  }

  // The chain's last three reviews all reached CHANGES-NEEDED.
  ghost predicate AtCap(ledger: Ledger, key: ChainKey) {
    var order := ReviewOrder(ledger, key);
    && |order| >= 3
    && forall k :: |order| - 3 <= k < |order| ==> Decision(ledger, order[k]) == Some(ChangesNeeded)
  }

  // The review is the n-th of its chain, counted from 1.
  ghost predicate HasRound(ledger: Ledger, id: ReviewId, n: nat) {
    exists key :: 1 <= n <= |ReviewOrder(ledger, key)| && ReviewOrder(ledger, key)[n - 1] == id
  }

  // What an admission says of the review of this exact briefing.
  ghost predicate Speaks(ledger: Ledger, id: ReviewId, p: Provenance, verdict: ProvenanceVerdict, reason: Option<string>) {
    var a := ArmedOf(ledger, id);
    && |a| > 0 && HasRound(ledger, id, p.round)
    && p == Provenance(id, BriefingSha(id.briefing), p.round, |a|, verdict, a[|a| - 1].tier, reason)
  }

  function Recorded(input: DispatchInput, tier: Tier, reason: RefusalReason): Option<Refusal> {
    Some(Refusal(input.repoPath, input.title, BriefingSha(input.briefing), input.jobId, tier, reason))
  }

  // ---- The gate's inputs, told from the records --------------------------------------------

  lemma HoldsIsEnforced(stage: Stage, tier: Tier)
    ensures TierEnforcedAt(tier, stage) <==> Holds(stage, tier)
  {
  }

  lemma DecisionIsRead(ledger: Ledger, id: ReviewId)
    requires LedgerOk(ledger) && |ArmedOf(ledger, id)| > 0
    ensures AggregateOf(AnyDecisive(ReviewVerdicts(ledger, id))) == Decision(ledger, id)
  {
    hide LedgerOk, ArmedOf, VerdictsOf, AnyDecisive, DecisiveVerdict, ReviewVerdicts, LatestArmed;
    DecisionReads(ledger, id);
    LatestIsLast(ledger, id);
  }

  lemma {:induction false} PushbacksAreRecorded(ledger: Ledger, id: ReviewId)
    ensures forall p :: p in PushbacksOf(ledger, id) <==> PushbackEvent(p) in ledger && p.reviewId == id
  {
    if |ledger| > 0 {
      PushbacksAreRecorded(ledger[..|ledger| - 1], id);
      assert ledger == ledger[..|ledger| - 1] + [ledger[|ledger| - 1]];
    }
  }

  lemma PushbackIsRead(ledger: Ledger, id: ReviewId)
    requires LedgerOk(ledger) && |ArmedOf(ledger, id)| > 0
    ensures var found := GenerationPushback(PushbacksOf(ledger, id), |ArmedOf(ledger, id)|);
            && (found.Some? <==> IsPushedBack(ledger, id))
            && (found.Some? ==> PushedBackWith(ledger, id, found.value))
  {
    hide LedgerOk, ArmedOf, PushbacksOf;
    PushbacksAreRecorded(ledger, id);
    GenerationPushbackReads(PushbacksOf(ledger, id), |ArmedOf(ledger, id)|);
    var found := GenerationPushback(PushbacksOf(ledger, id), |ArmedOf(ledger, id)|);
    if found.Some? {
      PushbackIsAmong(PushbacksOf(ledger, id), |ArmedOf(ledger, id)|);
      assert PushedBackWith(ledger, id, found.value);
    }
    if IsPushedBack(ledger, id) {
      var p :| PushedBackWith(ledger, id, p);
      assert p in PushbacksOf(ledger, id);
      var i :| 0 <= i < |PushbacksOf(ledger, id)| && PushbacksOf(ledger, id)[i] == p;
    }
  }

  lemma RoundIsPlace(ledger: Ledger, id: ReviewId, n: nat)
    requires LedgerOk(ledger) && |ArmedOf(ledger, id)| > 0
    ensures HasRound(ledger, id, n) <==> n == ArmedOf(ledger, id)[0].round
  {
    hide LedgerOk, ArmedOf, ReviewOrder;
    PlaceInChain(ledger, id);
    var key := ArmedOf(ledger, id)[0].chainKey;
    if HasRound(ledger, id, n) {
      var other :| 1 <= n <= |ReviewOrder(ledger, other)| && ReviewOrder(ledger, other)[n - 1] == id;
      assert id in ReviewOrder(ledger, other);
    }
    if n == ArmedOf(ledger, id)[0].round {
      assert 1 <= n <= |ReviewOrder(ledger, key)| && ReviewOrder(ledger, key)[n - 1] == id;
    }
  }

  lemma {:induction false} TrailingIsAtLeast(chain: seq<ChainReview>, n: nat)
    ensures TrailingReviews(chain) >= n <==>
            |chain| >= n && forall k :: |chain| - n <= k < |chain| ==> chain[k].verdict == Some(ChangesNeeded)
    decreases |chain|
  {
    if |chain| > 0 && n > 0 && chain[|chain| - 1].verdict == Some(ChangesNeeded) {
      TrailingIsAtLeast(chain[..|chain| - 1], n - 1);
    }
  }

  // Each row of the chain the gate is given.
  ghost predicate RowIs(ledger: Ledger, row: ChainReview, id: ReviewId) {
    var a := ArmedOf(ledger, id);
    |a| > 0 && row.tier == a[|a| - 1].tier && row.verdict == Decision(ledger, id)
  }

  lemma ChainIsRead(ledger: Ledger, key: ChainKey)
    requires LedgerOk(ledger)
    ensures |ChainReviews(ledger, key)| == |ReviewOrder(ledger, key)|
    ensures forall k :: 0 <= k < |ReviewOrder(ledger, key)| ==>
              RowIs(ledger, ChainReviews(ledger, key)[k], ReviewOrder(ledger, key)[k])
  {
    hide LedgerOk, ReviewOrder, ChainReviewOf, ChainReviewsOf, RowIs;
    ChainRowsFit(ledger, key);
    RowOfEachReview(ledger, ReviewOrder(ledger, key));
    forall k | 0 <= k < |ReviewOrder(ledger, key)|
      ensures RowIs(ledger, ChainReviews(ledger, key)[k], ReviewOrder(ledger, key)[k])
    {
      RowIsRead(ledger, key, k);
    }
  }

  lemma RowIsRead(ledger: Ledger, key: ChainKey, k: nat)
    requires LedgerOk(ledger) && k < |ReviewOrder(ledger, key)|
    ensures |ChainReviewOf(ledger, ReviewOrder(ledger, key)[k])| > 0
    ensures RowIs(ledger, ChainReviewOf(ledger, ReviewOrder(ledger, key)[k])[0], ReviewOrder(ledger, key)[k])
  {
    hide LedgerOk, ReviewOrder, ChainReviewOf, ArmedOf, Decision, AnyDecisive, ReviewVerdicts;
    ChainReviewReads(ledger, key, k);
    DecisionIsRead(ledger, ReviewOrder(ledger, key)[k]);
  }

  lemma CapIsRead(ledger: Ledger, key: ChainKey)
    requires LedgerOk(ledger)
    ensures ChainAtCap(ChainReviews(ledger, key)) <==> AtCap(ledger, key)
  {
    hide LedgerOk, ReviewOrder, Decision, ChainReviews, ArmedOf;
    ChainIsRead(ledger, key);
    var chain, order := ChainReviews(ledger, key), ReviewOrder(ledger, key);
    TrailingIsAtLeast(chain, 3);
    forall k | 0 <= k < |order| ensures chain[k].verdict == Decision(ledger, order[k]) {
      assert RowIs(ledger, chain[k], order[k]);
    }
  }

  // The newest review of the chain that the stage holds to readiness.
  ghost predicate NewestHeld(ledger: Ledger, key: ChainKey, stage: Stage, k: int) {
    var order := ReviewOrder(ledger, key);
    && 0 <= k < |order| && HeldReview(ledger, stage, order[k])
    && forall j :: k < j < |order| ==> !HeldReview(ledger, stage, order[j])
  }

  lemma {:induction false} EnforcedIsNewest(chain: seq<ChainReview>, stage: Stage, n: nat)
    requires n <= |chain| && forall j :: n <= j < |chain| ==> !TierEnforcedAt(chain[j].tier, stage)
    requires n > 0 ==> TierEnforcedAt(chain[n - 1].tier, stage)
    ensures |EnforcedReviews(chain, stage)| > 0 <==> n > 0
    ensures n > 0 ==> EnforcedReviews(chain, stage)[|EnforcedReviews(chain, stage)| - 1] == chain[n - 1]
    decreases |chain|
  {
    if n < |chain| {
      var init := chain[..|chain| - 1];
      EnforcedIsNewest(init, stage, n);
      assert EnforcedReviews(chain, stage) == EnforcedReviews(init, stage) + [];
    }
  }

  lemma {:induction false} LastHeld(chain: seq<ChainReview>, stage: Stage) returns (n: nat)
    ensures n <= |chain| && forall j :: n <= j < |chain| ==> !TierEnforcedAt(chain[j].tier, stage)
    ensures n > 0 ==> TierEnforcedAt(chain[n - 1].tier, stage)
    decreases |chain|
  {
    n := |chain|;
    if |chain| > 0 && !TierEnforcedAt(chain[|chain| - 1].tier, stage) {
      n := LastHeld(chain[..|chain| - 1], stage);
    }
  }

  lemma EnforcedIsRead(ledger: Ledger, key: ChainKey, stage: Stage) returns (k: int)
    requires LedgerOk(ledger)
    ensures var older := EnforcedReviews(ChainReviews(ledger, key), stage);
            var order := ReviewOrder(ledger, key);
            && (|older| > 0 <==> exists j :: 0 <= j < |order| && HeldReview(ledger, stage, order[j]))
            && (|older| > 0 ==>
                  && NewestHeld(ledger, key, stage, k)
                  && older[|older| - 1].tier == ArmedOf(ledger, order[k])[|ArmedOf(ledger, order[k])| - 1].tier)
  {
    hide LedgerOk, ReviewOrder, Decision, ChainReviews, ArmedOf, TierEnforcedAt, Holds;
    ChainIsRead(ledger, key);
    var chain, order := ChainReviews(ledger, key), ReviewOrder(ledger, key);
    var n := LastHeld(chain, stage);
    EnforcedIsNewest(chain, stage, n);
    forall j | 0 <= j < |order| ensures HeldReview(ledger, stage, order[j]) <==> TierEnforcedAt(chain[j].tier, stage) {
      assert RowIs(ledger, chain[j], order[j]);
      HoldsIsEnforced(stage, chain[j].tier);
    }
    k := n as int - 1;
    if n > 0 { assert RowIs(ledger, chain[k], order[k]); }
  }

  // What the gate is given about the review of this exact briefing.
  lemma ExactIsRead(ledger: Ledger, stage: Stage, input: DispatchInput)
    requires LedgerOk(ledger)
    ensures var id := ReviewId(input.briefing, input.repoPath);
            var a, g := ArmedOf(ledger, id), GateInputOf(ledger, stage, input);
            && g.stage == stage && g.briefing == input.briefing && g.requested == input.requested
            && g.repoPath == input.repoPath && g.title == input.title && g.jobId == input.jobId
            && g.chain == ChainReviews(ledger, ChainKey(input.repoPath, input.title))
            && (g.exact.Some? <==> |a| > 0)
            && g.exactVerdict == Decision(ledger, id)
            && (g.exactPushback.Some? <==> IsPushedBack(ledger, id))
            && (g.exactPushback.Some? ==> PushedBackWith(ledger, id, g.exactPushback.value))
            && (|a| > 0 ==>
                  && g.exact.value.reviewId == id && g.exact.value.sha == BriefingSha(input.briefing)
                  && g.exact.value.generation == |a| && g.exact.value.tier == a[|a| - 1].tier
                  && forall n :: HasRound(ledger, id, n) <==> n == g.exact.value.round)
  {
    hide LedgerOk, ArmedOf, VerdictsOf, PushbacksOf, ChainReviews, Decision, GenerationPushback, HasRound, PushedBackWith, AnyDecisive;
    var id := ReviewId(input.briefing, input.repoPath);
    GateReads(ledger, stage, input);
    if |ArmedOf(ledger, id)| > 0 {
      DecisionIsRead(ledger, id);
      PushbackIsRead(ledger, id);
      NewestIsExact(ledger, id);
      forall n: nat ensures HasRound(ledger, id, n) <==> n == ArmedOf(ledger, id)[0].round {
        RoundIsPlace(ledger, id, n);
      }
    } else {
      NothingIsRead(ledger, id);
    }
  }

  lemma NewestIsExact(ledger: Ledger, id: ReviewId)
    requires LedgerOk(ledger) && |ArmedOf(ledger, id)| > 0
    ensures var a := ArmedOf(ledger, id);
            var newest := a[|a| - 1];
            newest.reviewId == id && newest.sha == BriefingSha(id.briefing) && newest.generation == |a| && newest.round == a[0].round
  {
    hide LedgerOk, ArmedOf, VerdictsOf, PushbacksOf;
    FactsOf(ledger, id);
  }

  lemma NothingIsRead(ledger: Ledger, id: ReviewId)
    requires |ArmedOf(ledger, id)| == 0
    ensures Decision(ledger, id).None? && !IsPushedBack(ledger, id)
  {
  }

  // ---- A dispatch that claims a review --------------------------------------------------------

  // Admitted exactly when the claim is true, not pushed back, and READY or of a
  // tier the stage does not hold to readiness.
  ghost predicate TrueClaim(ledger: Ledger, stage: Stage, input: DispatchInput, claim: Requested) {
    var id := ReviewId(input.briefing, input.repoPath);
    && |ArmedOf(ledger, id)| > 0 && !IsPushedBack(ledger, id)
    && claim.sha == BriefingSha(input.briefing) && HasRound(ledger, id, claim.rounds)
    && Decision(ledger, id) == Some(claim.verdict)
    && (claim.verdict.Ready? || !HeldReview(ledger, stage, id))
  }

  lemma ClaimIsAdmittedExactly(steps: seq<Step>, stage: Stage, input: DispatchInput, claim: Requested)
    requires Legal(START, steps) && input.requested == Some(claim)
    ensures var ledger := After(START, steps).ledger;
            var id := ReviewId(input.briefing, input.repoPath);
            var a, r := ArmedOf(ledger, id), EvaluateDispatch(ledger, stage, input);
            var cap := AtCap(ledger, ChainKey(input.repoPath, input.title));
            && (r.Admitted? <==> TrueClaim(ledger, stage, input, claim))
            && (r.Admitted? ==>
                  && r.provenance.Some?
                  && Speaks(ledger, id, r.provenance.value, if claim.verdict.Ready? then SaysReady else SaysChangesNeeded, None))
            && (r.RefusedGate? ==>
                  if IsPushedBack(ledger, id) then r == RefusedGate(InvalidRequest, false, None)
                  else if claim.sha != BriefingSha(input.briefing) then r == RefusedGate(Mismatch, false, None)
                  else if |a| == 0 then r == RefusedGate(Unknown, cap, None)
                  else if !HasRound(ledger, id, claim.rounds) then r == RefusedGate(Mismatch, false, None)
                  else if Decision(ledger, id) != Some(claim.verdict) then r == RefusedGate(NoVerdict, false, None)
                  else r == RefusedGate(NotReady, cap, Recorded(input, a[|a| - 1].tier, HeldChangesNeeded)))
  {
    hide Legal, After, LedgerOk, EvaluateDispatch, ArmedOf, TrueClaim, Speaks, HasRound, Decision, AtCap, IsPushedBack;
    EveryLedgerIsOk(steps);
    ClaimIsDecided(After(START, steps).ledger, stage, input, claim);
  }

  lemma ClaimIsDecided(ledger: Ledger, stage: Stage, input: DispatchInput, claim: Requested)
    requires LedgerOk(ledger) && input.requested == Some(claim)
    ensures var id := ReviewId(input.briefing, input.repoPath);
            var a, r := ArmedOf(ledger, id), EvaluateDispatch(ledger, stage, input);
            var cap := AtCap(ledger, ChainKey(input.repoPath, input.title));
            && (r.Admitted? <==> TrueClaim(ledger, stage, input, claim))
            && (r.Admitted? ==>
                  && r.provenance.Some?
                  && Speaks(ledger, id, r.provenance.value, if claim.verdict.Ready? then SaysReady else SaysChangesNeeded, None))
            && (r.RefusedGate? ==>
                  if IsPushedBack(ledger, id) then r == RefusedGate(InvalidRequest, false, None)
                  else if claim.sha != BriefingSha(input.briefing) then r == RefusedGate(Mismatch, false, None)
                  else if |a| == 0 then r == RefusedGate(Unknown, cap, None)
                  else if !HasRound(ledger, id, claim.rounds) then r == RefusedGate(Mismatch, false, None)
                  else if Decision(ledger, id) != Some(claim.verdict) then r == RefusedGate(NoVerdict, false, None)
                  else r == RefusedGate(NotReady, cap, Recorded(input, a[|a| - 1].tier, HeldChangesNeeded)))
  {
    hide LedgerOk, ArmedOf, ChainReviews, Decision, HasRound, IsPushedBack, PushedBackWith, GateInputOf, TierEnforcedAt, Holds,
         AtCap, ChainAtCap;
    ExactIsRead(ledger, stage, input);
    CapIsRead(ledger, ChainKey(input.repoPath, input.title));
    var a := ArmedOf(ledger, ReviewId(input.briefing, input.repoPath));
    if |a| > 0 { HoldsIsEnforced(stage, a[|a| - 1].tier); }
  }

  // ---- A dispatch that claims none -----------------------------------------------------------

  lemma UnclaimedIsAdmittedExactly(steps: seq<Step>, stage: Stage, input: DispatchInput)
    requires Legal(START, steps) && input.requested.None?
    ensures var ledger := After(START, steps).ledger;
            var id, key := ReviewId(input.briefing, input.repoPath), ChainKey(input.repoPath, input.title);
            var a, r, order := ArmedOf(ledger, id), EvaluateDispatch(ledger, stage, input), ReviewOrder(ledger, key);
            && (r.Admitted? <==>
                  || Decision(ledger, id) == Some(Ready) || IsPushedBack(ledger, id) || stage.Stage1?
                  || (|a| > 0 && !Holds(stage, a[|a| - 1].tier))
                  || (|a| == 0 && forall j :: 0 <= j < |order| ==> !HeldReview(ledger, stage, order[j])))
            && (r.Admitted? ==>
                  if Decision(ledger, id) == Some(Ready) then
                    r.provenance.Some? && Speaks(ledger, id, r.provenance.value, SaysReady, None)
                  else if IsPushedBack(ledger, id) then
                    exists p :: PushedBackWith(ledger, id, p)
                                && r.provenance.Some? && Speaks(ledger, id, r.provenance.value, PushedBack, Some(p.reason))
                  else r.provenance.None?)
            && (r.RefusedGate? ==>
                  if |a| == 0 then
                    exists k :: NewestHeld(ledger, key, stage, k)
                                && r == RefusedGate(Required, AtCap(ledger, key), Recorded(input, NewestTier(ledger, order[k]), Missing))
                  else if Decision(ledger, id).Some? then
                    r == RefusedGate(NotReady, AtCap(ledger, key), Recorded(input, a[|a| - 1].tier, HeldChangesNeeded))
                  else r == RefusedGate(NoVerdict, false, Recorded(input, a[|a| - 1].tier, Pending)))
  {
    hide Legal, After, LedgerOk, EvaluateDispatch, ArmedOf, Speaks, Decision, AtCap, IsPushedBack, PushedBackWith, HeldReview, ReviewOrder,
         NewestHeld, NewestTier, Holds;
    EveryLedgerIsOk(steps);
    var ledger := After(START, steps).ledger;
    UnclaimedAdmission(ledger, stage, input);
    UnclaimedRefusal(ledger, stage, input);
  }

  ghost function NewestTier(ledger: Ledger, id: ReviewId): Tier {
    var a := ArmedOf(ledger, id);
    if |a| == 0 then Low else a[|a| - 1].tier
  }

  lemma UnclaimedAdmission(ledger: Ledger, stage: Stage, input: DispatchInput)
    requires LedgerOk(ledger) && input.requested.None?
    ensures var id, key := ReviewId(input.briefing, input.repoPath), ChainKey(input.repoPath, input.title);
            var a, r, order := ArmedOf(ledger, id), EvaluateDispatch(ledger, stage, input), ReviewOrder(ledger, key);
            && (r.Admitted? <==>
                  || Decision(ledger, id) == Some(Ready) || IsPushedBack(ledger, id) || stage.Stage1?
                  || (|a| > 0 && !Holds(stage, a[|a| - 1].tier))
                  || (|a| == 0 && forall j :: 0 <= j < |order| ==> !HeldReview(ledger, stage, order[j])))
            && (r.Admitted? ==>
                  if Decision(ledger, id) == Some(Ready) then
                    r.provenance.Some? && Speaks(ledger, id, r.provenance.value, SaysReady, None)
                  else if IsPushedBack(ledger, id) then
                    exists p :: PushedBackWith(ledger, id, p)
                                && r.provenance.Some? && Speaks(ledger, id, r.provenance.value, PushedBack, Some(p.reason))
                  else r.provenance.None?)
  {
    hide LedgerOk, ArmedOf, ChainReviews, Decision, HasRound, IsPushedBack, PushedBackWith, GateInputOf, TierEnforcedAt, Holds,
         AtCap, ChainAtCap, HeldReview, ReviewOrder, EnforcedReviews, NewestHeld;
    var id := ReviewId(input.briefing, input.repoPath);
    ExactIsRead(ledger, stage, input);
    UnreviewedIsNothing(ledger, id);
    var k := EnforcedIsRead(ledger, ChainKey(input.repoPath, input.title), stage);
    var a := ArmedOf(ledger, id);
    if |a| > 0 { HoldsIsEnforced(stage, a[|a| - 1].tier); }
  }

  lemma UnreviewedIsNothing(ledger: Ledger, id: ReviewId)
    ensures |ArmedOf(ledger, id)| == 0 ==> Decision(ledger, id).None? && !IsPushedBack(ledger, id)
  {
  }

  lemma UnclaimedRefusal(ledger: Ledger, stage: Stage, input: DispatchInput)
    requires LedgerOk(ledger) && input.requested.None?
    ensures var id, key := ReviewId(input.briefing, input.repoPath), ChainKey(input.repoPath, input.title);
            var a, r, order := ArmedOf(ledger, id), EvaluateDispatch(ledger, stage, input), ReviewOrder(ledger, key);
            r.RefusedGate? ==>
              if |a| == 0 then
                exists k :: NewestHeld(ledger, key, stage, k)
                            && r == RefusedGate(Required, AtCap(ledger, key), Recorded(input, NewestTier(ledger, order[k]), Missing))
              else if Decision(ledger, id).Some? then
                r == RefusedGate(NotReady, AtCap(ledger, key), Recorded(input, a[|a| - 1].tier, HeldChangesNeeded))
              else r == RefusedGate(NoVerdict, false, Recorded(input, a[|a| - 1].tier, Pending))
  {
    hide LedgerOk, ArmedOf, ChainReviews, Decision, HasRound, IsPushedBack, PushedBackWith, GateInputOf, TierEnforcedAt, Holds,
         AtCap, ChainAtCap, HeldReview, ReviewOrder, EnforcedReviews;
    ExactIsRead(ledger, stage, input);
    CapIsRead(ledger, ChainKey(input.repoPath, input.title));
    var k := EnforcedIsRead(ledger, ChainKey(input.repoPath, input.title), stage);
    HeldIsArmed(ledger, ChainKey(input.repoPath, input.title), stage, k);
    TwoVerdicts(Decision(ledger, ReviewId(input.briefing, input.repoPath)));
  }

  lemma TwoVerdicts(decision: Option<Verdict>)
    ensures decision.None? || decision == Some(Ready) || decision == Some(ChangesNeeded)
  {
    if decision.Some? {
      match decision.value
      case Ready =>
      case ChangesNeeded =>
    }
  }

  lemma HeldIsArmed(ledger: Ledger, key: ChainKey, stage: Stage, k: int)
    ensures NewestHeld(ledger, key, stage, k) ==> |ArmedOf(ledger, ReviewOrder(ledger, key)[k])| > 0
  {
  }
}
