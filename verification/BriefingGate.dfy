// The dispatch gate (src/briefing-review/gate.ts): a pure decision over records
// somebody else read.
module BriefingGate {
  import opened Outcomes
  import opened BriefingTypes
  import opened BriefingLedger

  datatype Requested = Requested(rounds: nat, verdict: Verdict, sha: BriefingSha)

  datatype ProvenanceVerdict = SaysReady | SaysChangesNeeded | PushedBack

  datatype Provenance = Provenance(
    reviewId: ReviewId, sha: BriefingSha, round: nat, generation: nat,
    verdict: ProvenanceVerdict, tier: Tier, pushbackReason: Option<string>)

  // One review of the heist's chain, at its newest generation.
  datatype ChainReview = ChainReview(reviewId: ReviewId, tier: Tier, round: nat, verdict: Option<Verdict>, sha: BriefingSha)

  datatype GateInput = GateInput(
    stage: Stage, briefing: string, repoPath: string, title: string, jobId: string,
    requested: Option<Requested>,
    exact: Option<Armed>, exactVerdict: Option<Verdict>, exactPushback: Option<Pushback>,
    chain: seq<ChainReview>)

  datatype GateCode = InvalidRequest | Mismatch | Unknown | NoVerdict | NotReady | Required

  // `capRouting` is whether the refusal routes the caller to the round cap's
  // push-back path instead of another revision.
  datatype GateResult =
    | Admitted(provenance: Option<Provenance>)
    | RefusedGate(code: GateCode, capRouting: bool, refusal: Option<Refusal>)

  function Claim(exact: Armed, verdict: ProvenanceVerdict, reason: Option<string>): Provenance {
    Provenance(exact.reviewId, exact.sha, exact.round, exact.generation, verdict, exact.tier, reason)
  }

  function TrailingReviews(chain: seq<ChainReview>): nat {
    if |chain| == 0 || chain[|chain| - 1].verdict != Some(ChangesNeeded) then 0
    else 1 + TrailingReviews(chain[..|chain| - 1])
  }

  predicate ChainAtCap(chain: seq<ChainReview>) {
    TrailingReviews(chain) >= ROUND_CAP
  }

  method CountChainAtCap(chain: seq<ChainReview>) returns (atCap: bool)
    ensures atCap == ChainAtCap(chain)
  {
    var trailing := 0;
    var i := |chain|;
    assert chain[..i] == chain;
    while i > 0
      invariant 0 <= i <= |chain|
      invariant trailing + TrailingReviews(chain[..i]) == TrailingReviews(chain)
      decreases i
    {
      assert chain[..i][..i - 1] == chain[..i - 1];
      if chain[i - 1].verdict != Some(ChangesNeeded) {
        break;
      }
      trailing := trailing + 1;
      i := i - 1;
    }
    atCap := trailing >= ROUND_CAP;
  }

  function RefusalOf(input: GateInput, tier: Tier, reason: RefusalReason): Option<Refusal> {
    Some(Refusal(input.repoPath, input.title, BriefingSha(input.briefing), input.jobId, tier, reason))
  }

  // The reviews of the chain whose tier the stage enforces.
  function EnforcedReviews(chain: seq<ChainReview>, stage: Stage): seq<ChainReview> {
    if |chain| == 0 then []
    else EnforcedReviews(chain[..|chain| - 1], stage)
         + (if TierEnforcedAt(chain[|chain| - 1].tier, stage) then [chain[|chain| - 1]] else [])
  }

  function RequestedGate(input: GateInput, claim: Requested): GateResult {
    if input.exactPushback.Some? then RefusedGate(InvalidRequest, false, None)
    else if claim.sha != BriefingSha(input.briefing) then RefusedGate(Mismatch, false, None)
    else if input.exact.None? then RefusedGate(Unknown, ChainAtCap(input.chain), None)
    else if claim.rounds != input.exact.value.round then RefusedGate(Mismatch, false, None)
    else if input.exactVerdict != Some(claim.verdict) then RefusedGate(NoVerdict, false, None)
    else if claim.verdict.ChangesNeeded? && TierEnforcedAt(input.exact.value.tier, input.stage) then
      RefusedGate(NotReady, ChainAtCap(input.chain), RefusalOf(input, input.exact.value.tier, HeldChangesNeeded))
    else
      Admitted(Some(Claim(input.exact.value, if claim.verdict.Ready? then SaysReady else SaysChangesNeeded, None)))
  }

  function UnclaimedGate(input: GateInput): GateResult {
    var stage := input.stage;
    if input.exact.Some? && input.exactVerdict == Some(Ready) then
      Admitted(Some(Claim(input.exact.value, SaysReady, None)))
    else if input.exact.Some? && input.exactPushback.Some? then
      Admitted(Some(Claim(input.exact.value, PushedBack, Some(input.exactPushback.value.reason))))
    else if stage.Stage1? || (input.exact.Some? && !TierEnforcedAt(input.exact.value.tier, stage)) then
      Admitted(None)
    else if input.exact.Some? && input.exactVerdict == Some(ChangesNeeded) then
      RefusedGate(NotReady, ChainAtCap(input.chain), RefusalOf(input, input.exact.value.tier, HeldChangesNeeded))
    else if input.exact.Some? then
      RefusedGate(NoVerdict, false, RefusalOf(input, input.exact.value.tier, Pending))
    else
      var older := EnforcedReviews(input.chain, stage);
      if |older| > 0 then
        RefusedGate(Required, ChainAtCap(input.chain), RefusalOf(input, older[|older| - 1].tier, Missing))
      else Admitted(None)
  }

  function BriefingReviewGate(input: GateInput): GateResult {
    if input.requested.Some? then RequestedGate(input, input.requested.value) else UnclaimedGate(input)
  }

  // ---- The stages, side by side --------------------------------------------------

  lemma {:induction false} EnforcedReviewsNonempty(chain: seq<ChainReview>, stage: Stage)
    ensures |EnforcedReviews(chain, stage)| > 0 <==> exists i :: 0 <= i < |chain| && TierEnforcedAt(chain[i].tier, stage)
  {
    if |chain| > 0 {
      EnforcedReviewsNonempty(chain[..|chain| - 1], stage);
    }
  }

  // Admission only shrinks from stage 1 to stage 2 to stage 3, `auto` decides
  // exactly as stage 3 does, and stages that both admit attach the same provenance.
  lemma StagesOnlyTighten(input: GateInput)
    ensures var at := (stage: Stage) => BriefingReviewGate(input.(stage := stage));
            && (at(Stage3).Admitted? ==> at(Stage2).Admitted?)
            && (at(Stage2).Admitted? ==> at(Stage1).Admitted?)
            && at(Auto) == at(Stage3)
            && (forall a, b :: at(a).Admitted? && at(b).Admitted? ==> at(a) == at(b))
  {
    forall stage {
      EnforcedReviewsNonempty(input.chain, stage);
    }
    SameEnforcedReviews(input.chain);
  }

  lemma {:induction false} SameEnforcedReviews(chain: seq<ChainReview>)
    ensures EnforcedReviews(chain, Auto) == EnforcedReviews(chain, Stage3)
  {
    if |chain| > 0 { SameEnforcedReviews(chain[..|chain| - 1]); }
  }
}
