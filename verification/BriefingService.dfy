// The briefing-review service (src/briefing-review/service.ts): commission,
// tier raise, lens results, push-back and the dispatch decision, each reading
// the append-only ledger afresh and appending at most one event.
module BriefingService {
  import opened Outcomes
  import opened BriefingTypes
  import opened BriefingLedger
  import opened BriefingGate

  datatype CommissionRequest = CommissionRequest(repo: string, title: string, briefing: string, tier: Tier, justification: string)

  datatype ResultRequest = ResultRequest(
    repo: string, sha: BriefingSha, job: LensJob, lens: Lens, verdict: Verdict, findings: seq<Finding>)

  datatype PushbackRequest = PushbackRequest(repo: string, sha: BriefingSha, reason: string, author: string)

  datatype DispatchInput = DispatchInput(
    jobId: string, repoPath: string, title: string, briefing: string, requested: Option<Requested>)

  datatype Code =
    | NotCommissioned | AlreadyDecided | AtRoundCap | LensUnknown | JobMismatch | NotDispatched
    | EvidenceRefused | ResultConflict | AlreadyReady | PushbackConflict
    | Disabled | HelperUnavailable | DispatchFailed

  datatype Commissioned = Commissioned(armed: Armed, upgraded: bool)

  datatype ResultView = ResultView(
    reviewId: ReviewId, lens: Lens, verdict: Verdict, aggregate: Option<Verdict>, decisive: bool, caught: nat)

  // A lens job row, as what `ReviewedBriefing` reads between its markers.
  type Jobs = map<LensJob, Option<string>>

  // ---- Commission -------------------------------------------------------------

  function FirstArmed(ledger: Ledger, req: CommissionRequest, headSha: Option<string>): Armed {
    var key := ChainKey(req.repo, req.title);
    Armed(ReviewId(req.briefing, req.repo), CommissionKey(req.briefing, req.repo, req.tier), key,
          BriefingSha(req.briefing), req.repo, req.title, req.tier, req.justification,
          |ReviewOrder(ledger, key)| + 1, 1, TierLenses(req.tier), headSha, None)
  }

  function RaisedArmed(existing: Armed, req: CommissionRequest): Armed {
    existing.(commissionKey := CommissionKey(req.briefing, req.repo, req.tier), tier := req.tier,
              justification := req.justification, generation := existing.generation + 1,
              lenses := UnionLenses(existing.lenses, TierLenses(req.tier)),
              upgradedFrom := Some(existing.generation))
  }

  predicate IsDecided(ledger: Ledger, armed: Armed) {
    DecisiveVerdict(ReviewVerdicts(ledger, armed.reviewId), armed.generation).Some?
  }

  // What a commission decides before it dispatches anything: its outcome and
  // the event it arms, if any.
  function Arming(ledger: Ledger, req: CommissionRequest, headSha: Option<string>): (Result<Commissioned, Code>, seq<Event>) {
    var existing := LatestArmed(ledger, ReviewId(req.briefing, req.repo));
    if existing.Some? then
      var raising := TierRank(req.tier) > TierRank(existing.value.tier);
      if raising && IsDecided(ledger, existing.value) then (Err(AlreadyDecided), [])
      else if !raising then (Ok(Commissioned(existing.value, false)), [])
      else ReadBack(ledger, RaisedArmed(existing.value, req), true)
    else if TrailingRun(ledger, ReviewOrder(ledger, ChainKey(req.repo, req.title))) >= ROUND_CAP then (Err(AtRoundCap), [])
    else ReadBack(ledger, FirstArmed(ledger, req, headSha), false)
  }

  // `arm`: append, then answer with the newest record read back.
  function ReadBack(ledger: Ledger, armed: Armed, upgraded: bool): (Result<Commissioned, Code>, seq<Event>) {
    var latest := LatestArmed(ledger + [ArmedEvent(armed)], armed.reviewId);
    (if latest.None? then Err(NotCommissioned) else Ok(Commissioned(latest.value, upgraded)), [ArmedEvent(armed)])
  }

  // ---- Lens results ------------------------------------------------------------------

  predicate OthersReady(verdicts: seq<LensVerdict>, armed: Armed, lens: Lens) {
    forall l :: l in armed.lenses && l != lens ==> LensReady(verdicts, l)
  }

  function AggregateFor(verdicts: seq<LensVerdict>, armed: Armed, lens: Lens, verdict: Verdict): Option<Verdict> {
    if DecisiveVerdict(verdicts, armed.generation).Some? then None
    else if verdict.ChangesNeeded? then Some(ChangesNeeded)
    else if OthersReady(verdicts, armed, lens) then Some(Ready)
    else None
  }

  function NewVerdict(ledger: Ledger, armed: Armed, req: ResultRequest): LensVerdict {
    var verdicts := ReviewVerdicts(ledger, armed.reviewId);
    var aggregate := AggregateFor(verdicts, armed, req.lens, req.verdict);
    LensVerdict(armed.reviewId, armed.chainKey, armed.sha, req.lens, req.verdict, req.findings, armed.round, armed.generation,
                aggregate.Some?, aggregate,
                if aggregate == Some(Ready) then CaughtByRevision(ledger, armed.chainKey, armed.reviewId) else 0)
  }

  function ViewOf(v: LensVerdict): ResultView {
    ResultView(v.reviewId, v.lens, v.verdict, v.aggregate, v.decisive, v.caught)
  }

  // The checks a result passes before any earlier result of its lens is read.
  function ResultRefusal(ledger: Ledger, jobs: Jobs, req: ResultRequest): Option<Code> {
    var armed := ArmedBySha(ledger, req.sha, req.repo);
    if armed.None? then Some(NotCommissioned)
    else if req.lens !in armed.value.lenses then Some(LensUnknown)
    else
      var job := LensJob(armed.value.reviewId, req.lens);
      if req.job != job then Some(JobMismatch)
      else if job !in jobs || jobs[job].None? then Some(NotDispatched)
      else if !EvidenceHolds(req.findings, req.verdict, jobs[job].value) then Some(EvidenceRefused)
      else None
  }

  function Submitting(ledger: Ledger, jobs: Jobs, req: ResultRequest): (Result<ResultView, Code>, seq<Event>) {
    var refusal := ResultRefusal(ledger, jobs, req);
    if refusal.Some? then (Err(refusal.value), [])
    else
      var armed := ArmedBySha(ledger, req.sha, req.repo).value;
      var existing := LatestLensVerdict(ReviewVerdicts(ledger, armed.reviewId), req.lens);
      if existing.Some? then
        if existing.value.verdict == req.verdict && existing.value.findings == req.findings
        then (Ok(ViewOf(existing.value)), [])
        else (Err(ResultConflict), [])
      else
        var v := NewVerdict(ledger, armed, req);
        (Ok(ViewOf(v)), [VerdictEvent(v)])
  }

  // ---- Push-back ------------------------------------------------------------------------

  function GenerationPushback(rows: seq<Pushback>, generation: nat): Option<Pushback> {
    if |rows| == 0 then None
    else if rows[|rows| - 1].generation == generation then Some(rows[|rows| - 1])
    else GenerationPushback(rows[..|rows| - 1], generation)
  }

  function PushingBack(ledger: Ledger, req: PushbackRequest): (Result<Pushback, Code>, seq<Event>) {
    var armed := ArmedBySha(ledger, req.sha, req.repo);
    if armed.None? then (Err(NotCommissioned), [])
    else
      var verdicts := ReviewVerdicts(ledger, armed.value.reviewId);
      if AggregateOf(DecisiveVerdict(verdicts, armed.value.generation)) == Some(Ready) then (Err(AlreadyReady), [])
      else
        var existing := GenerationPushback(ReviewPushbacks(ledger, armed.value.reviewId), armed.value.generation);
        if existing.Some? then
          (if existing.value.reason == req.reason then Ok(existing.value) else Err(PushbackConflict), [])
        else
          var p := Pushback(armed.value.reviewId, armed.value.sha, armed.value.generation, req.reason, req.author);
          (Ok(p), [PushbackEvent(p)])
  }

  // ---- The dispatch decision --------------------------------------------------------------

  function ChainReviewOf(ledger: Ledger, id: ReviewId): seq<ChainReview> {
    var armed := LatestArmed(ledger, id);
    if armed.None? then []
    else
      var verdict := DecisiveVerdict(ReviewVerdicts(ledger, id), armed.value.generation);
      [ChainReview(id, armed.value.tier, armed.value.round, AggregateOf(verdict), armed.value.sha)]
  }

  function ChainReviewsOf(ledger: Ledger, order: seq<ReviewId>): seq<ChainReview> {
    if |order| == 0 then []
    else ChainReviewsOf(ledger, order[..|order| - 1]) + ChainReviewOf(ledger, order[|order| - 1])
  }

  function ChainReviews(ledger: Ledger, key: ChainKey): seq<ChainReview> {
    ChainReviewsOf(ledger, ReviewOrder(ledger, key))
  }

  function GateInputOf(ledger: Ledger, stage: Stage, input: DispatchInput): GateInput {
    var exact := LatestArmed(ledger, ReviewId(input.briefing, input.repoPath));
    GateInput(stage, input.briefing, input.repoPath, input.title, input.jobId, input.requested,
              exact,
              if exact.None? then None
              else AggregateOf(DecisiveVerdict(ReviewVerdicts(ledger, exact.value.reviewId), exact.value.generation)),
              if exact.None? then None
              else GenerationPushback(ReviewPushbacks(ledger, exact.value.reviewId), exact.value.generation),
              ChainReviews(ledger, ChainKey(input.repoPath, input.title)))
  }

  function EvaluateDispatch(ledger: Ledger, stage: Stage, input: DispatchInput): GateResult {
    BriefingReviewGate(GateInputOf(ledger, stage, input))
  }

  // A readiness refusal records its attempt; nothing else is recorded.
  function Admitting(ledger: Ledger, stage: Stage, input: DispatchInput): (GateResult, seq<Event>) {
    var outcome := EvaluateDispatch(ledger, stage, input);
    (outcome, if outcome.RefusedGate? && outcome.refusal.Some? then [RefusedEvent(outcome.refusal.value)] else [])
  }

  // ---- The service itself --------------------------------------------------------------------

  function MissingJobs(jobs: Jobs, armed: Armed, lenses: seq<Lens>): set<LensJob> {
    set l | l in lenses && LensJob(armed.reviewId, l) !in jobs :: LensJob(armed.reviewId, l)
  }

  // A dispatch of the armed lenses that threw at the i-th of them.
  ghost predicate StoppedAt(before: Jobs, after: Jobs, armed: Armed, failing: set<LensJob>, i: int) {
    && 0 <= i < |armed.lenses|
    && LensJob(armed.reviewId, armed.lenses[i]) in failing && LensJob(armed.reviewId, armed.lenses[i]) !in after
    && after.Keys == before.Keys + MissingJobs(before, armed, armed.lenses[..i])
  }

  // The report debt of a lens job.
  datatype Debt = OpenDebt | WaitingDebt | SuspendedDebt | SettledDebt | ClosedDebt

  // A debt a result can still answer.
  predicate Answerable(debt: Debt) {
    debt.OpenDebt? || debt.WaitingDebt? || debt.SuspendedDebt?
  }

  // A result as the ledger holds it.
  ghost predicate ResultRecorded(ledger: Ledger, req: ResultRequest, view: ResultView) {
    exists v :: VerdictEvent(v) in ledger && ViewOf(v) == view
                && v.lens == req.lens && v.verdict == req.verdict && v.findings == req.findings
  }

  lemma {:induction false} PushbackIsAmong(rows: seq<Pushback>, generation: nat)
    ensures GenerationPushback(rows, generation).Some? ==> GenerationPushback(rows, generation).value in rows
  {
    if |rows| > 0 { PushbackIsAmong(rows[..|rows| - 1], generation); }
  }

  class Service {
    var ledger: Ledger
    var jobs: Jobs
    var debts: map<LensJob, Debt>
    var notifications: map<(ReviewId, nat), Verdict>
    const enabled: bool
    const stage: Stage

    constructor (enabled: bool, stage: Stage)
      ensures ledger == [] && jobs == map[] && debts == map[] && notifications == map[]
      ensures this.enabled == enabled && this.stage == stage
    {
      ledger, jobs, debts, notifications := [], map[], map[], map[];
      this.enabled, this.stage := enabled, stage;
    }

    method Arm(armed: Armed) returns (latest: Option<Armed>)
      modifies this`ledger
      ensures ledger == old(ledger) + [ArmedEvent(armed)]
      ensures latest == LatestArmed(ledger, armed.reviewId)
    {
      ledger := ledger + [ArmedEvent(armed)];
      latest := LatestArmed(ledger, armed.reviewId);
    }

    // Dispatches, in order, every armed lens that has no job row yet; `row` is
    // what the dispatched row carries between its markers. A dispatch in
    // `failing` throws: those before it stay dispatched, those after it wait.
    method DispatchLenses(armed: Armed, row: Option<string>, failing: set<LensJob>) returns (dispatched: Result<bool, Code>)
      modifies this`jobs
      ensures dispatched.Ok? <==> MissingJobs(old(jobs), armed, armed.lenses) !! failing
      ensures dispatched.Ok? ==>
                && jobs.Keys == old(jobs).Keys + MissingJobs(old(jobs), armed, armed.lenses)
                && (dispatched.value <==> MissingJobs(old(jobs), armed, armed.lenses) != {})
      ensures dispatched.Err? ==> dispatched.error == DispatchFailed
      ensures dispatched.Err? ==> exists i :: StoppedAt(old(jobs), jobs, armed, failing, i)
      ensures forall j :: j in old(jobs) ==> j in jobs && jobs[j] == old(jobs)[j]
      ensures forall j :: j in jobs && j !in old(jobs) ==> jobs[j] == row
    {
      var any := false;
      for i := 0 to |armed.lenses|
        invariant jobs.Keys == old(jobs).Keys + MissingJobs(old(jobs), armed, armed.lenses[..i])
        invariant forall j :: j in old(jobs) ==> j in jobs && jobs[j] == old(jobs)[j]
        invariant forall j :: j in jobs && j !in old(jobs) ==> jobs[j] == row
        invariant any <==> MissingJobs(old(jobs), armed, armed.lenses[..i]) != {}
        invariant MissingJobs(old(jobs), armed, armed.lenses[..i]) !! failing
      {
        var job := LensJob(armed.reviewId, armed.lenses[i]);
        OneMoreLens(old(jobs), armed, i);
        if job in jobs {
          continue;
        }
        if job in failing {
          assert job in MissingJobs(old(jobs), armed, armed.lenses);
          assert StoppedAt(old(jobs), jobs, armed, failing, i);
          return Err(DispatchFailed);
        }
        jobs := jobs[job := row];
        any := true;
      }
      assert armed.lenses[..|armed.lenses|] == armed.lenses;
      dispatched := Ok(any);
    }

    // A commission that its helper lets start arms what it decides to arm, and
    // keeps it even when a dispatch then throws.
    method Commission(req: CommissionRequest, headSha: Option<string>, row: Option<string>, helperLoads: bool, failing: set<LensJob>)
      returns (r: Result<Commissioned, Code>, dispatched: bool)
      modifies this`ledger, this`jobs
      ensures !enabled ==> r == Err(Disabled)
      ensures enabled && !helperLoads ==> r == Err(HelperUnavailable)
      ensures !enabled || !helperLoads ==> ledger == old(ledger) && jobs == old(jobs)
      ensures enabled && helperLoads ==>
                var (outcome, armed) := Arming(old(ledger), req, headSha);
                && ledger == old(ledger) + armed && |armed| <= 1
                && (outcome.Err? ==> r == Err(outcome.error) && jobs == old(jobs))
                && (outcome.Ok? ==>
                      var missing := MissingJobs(old(jobs), outcome.value.armed, outcome.value.armed.lenses);
                      && (missing !! failing ==>
                            r == outcome && jobs.Keys == old(jobs).Keys + missing && (dispatched <==> missing != {}))
                      && (!(missing !! failing) ==>
                            r == Err(DispatchFailed) && old(jobs).Keys <= jobs.Keys < old(jobs).Keys + missing))
      ensures r.Err? ==> !dispatched
      ensures forall j :: j in old(jobs) ==> j in jobs && jobs[j] == old(jobs)[j]
    {
      hide UnionLenses, TierLenses, ReviewOrder, TrailingRun, LatestArmed, IsDecided;
      dispatched := false;
      if !enabled {
        return Err(Disabled), false;
      }
      if !helperLoads {
        return Err(HelperUnavailable), false;
      }
      var existing := LatestArmed(ledger, ReviewId(req.briefing, req.repo));
      if existing.Some? {
        var raising := TierRank(req.tier) > TierRank(existing.value.tier);
        if raising && IsDecided(ledger, existing.value) {
          return Err(AlreadyDecided), false;
        }
        if !raising {
          r, dispatched := Dispatched(Commissioned(existing.value, false), row, failing);
          return r, dispatched;
        }
        var raised := Arm(RaisedArmed(existing.value, req));
        if raised.None? {
          return Err(NotCommissioned), false;
        }
        r, dispatched := Dispatched(Commissioned(raised.value, true), row, failing);
        return r, dispatched;
      }
      var trailing := TrailingChangesNeeded(ledger, ChainKey(req.repo, req.title));
      if trailing >= ROUND_CAP {
        return Err(AtRoundCap), false;
      }
      var armed := Arm(FirstArmed(ledger, req, headSha));
      if armed.None? {
        return Err(NotCommissioned), false;
      }
      r, dispatched := Dispatched(Commissioned(armed.value, false), row, failing);
    }

    // The end of every accepted commission: its lens jobs.
    method Dispatched(outcome: Commissioned, row: Option<string>, failing: set<LensJob>)
      returns (r: Result<Commissioned, Code>, dispatched: bool)
      modifies this`jobs
      ensures var missing := MissingJobs(old(jobs), outcome.armed, outcome.armed.lenses);
              && (missing !! failing ==>
                    r == Ok(outcome) && jobs.Keys == old(jobs).Keys + missing && (dispatched <==> missing != {}))
              && (!(missing !! failing) ==>
                    r == Err(DispatchFailed) && old(jobs).Keys <= jobs.Keys < old(jobs).Keys + missing)
      ensures r.Err? ==> !dispatched
      ensures forall j :: j in old(jobs) ==> j in jobs && jobs[j] == old(jobs)[j]
    {
      var armed := outcome.armed;
      ghost var missing := MissingJobs(jobs, armed, armed.lenses);
      var any := DispatchLenses(armed, row, failing);
      if any.Err? {
        ghost var i :| StoppedAt(old(jobs), jobs, armed, failing, i);
        assert MissingJobs(old(jobs), armed, armed.lenses[..i]) <= missing;
        assert LensJob(armed.reviewId, armed.lenses[i]) in missing;
        return Err(any.error), false;
      }
      r, dispatched := Ok(outcome), any.value;
    }

    // One notification per decided generation: posting an id again leaves the
    // row that is there.
    method Announce(armed: Armed, verdict: Verdict)
      modifies this`notifications
      ensures notifications == if (armed.reviewId, armed.generation) in old(notifications) then old(notifications)
                               else old(notifications)[(armed.reviewId, armed.generation) := verdict]
    {
      if (armed.reviewId, armed.generation) !in notifications {
        notifications := notifications[(armed.reviewId, armed.generation) := verdict];
      }
    }

    // Answers the job's own report debt; a settlement that fails is logged only.
    method SettleLensReport(job: LensJob, fails: bool)
      modifies this`debts
      ensures debts == if job in old(debts) && Answerable(old(debts)[job]) && !fails then old(debts)[job := SettledDebt]
                       else old(debts)
    {
      if job !in debts || !Answerable(debts[job]) {
        return;
      }
      if !fails {
        debts := debts[job := SettledDebt];
      }
    }

    method SubmitResult(req: ResultRequest, settleFails: bool) returns (r: Result<ResultView, Code>)
      modifies this`ledger, this`notifications, this`debts
      ensures var (outcome, appended) := Submitting(old(ledger), jobs, req);
              r == outcome && ledger == old(ledger) + appended && |appended| <= 1
      ensures r.Ok? ==> ResultRecorded(ledger, req, r.value)
      ensures r.Err? || ledger == old(ledger) ==>
                ledger == old(ledger) && notifications == old(notifications) && debts == old(debts)
      ensures ledger != old(ledger) ==>
                && (if r.value.decisive && (r.value.reviewId, Generation(ledger)) !in old(notifications)
                    then notifications == old(notifications)[(r.value.reviewId, Generation(ledger)) := r.value.aggregate.value]
                    else notifications == old(notifications))
                && (if req.job in old(debts) && Answerable(old(debts)[req.job]) && !settleFails
                    then debts == old(debts)[req.job := SettledDebt]
                    else debts == old(debts))
    {
      hide CaughtByRevision, OthersReady, EvidenceHolds, DecisiveVerdict, LatestLensVerdict, TrimEnd, Trim, OccursAt;
      var found := ArmedBySha(ledger, req.sha, req.repo);
      if found.None? {
        return Err(NotCommissioned);
      }
      var armed := found.value;
      if req.lens !in armed.lenses {
        return Err(LensUnknown);
      }
      var job := LensJob(armed.reviewId, req.lens);
      if req.job != job {
        return Err(JobMismatch);
      }
      if job !in jobs || jobs[job].None? {
        return Err(NotDispatched);
      }
      var holds := AssertFindingEvidence(req.findings, req.verdict, jobs[job].value);
      if !holds {
        return Err(EvidenceRefused);
      }
      var verdicts := ReviewVerdicts(ledger, armed.reviewId);
      var existing := LatestLensVerdict(verdicts, req.lens);
      if existing.Some? {
        if existing.value.verdict == req.verdict && existing.value.findings == req.findings {
          LatestWasRecorded(ledger, armed.reviewId, req.lens);
          return Ok(ViewOf(existing.value));
        }
        return Err(ResultConflict);
      }
      var aggregate := AggregateFor(verdicts, armed, req.lens, req.verdict);
      var caught := if aggregate == Some(Ready) then CaughtByRevision(ledger, armed.chainKey, armed.reviewId) else 0;
      var v := LensVerdict(armed.reviewId, armed.chainKey, armed.sha, req.lens, req.verdict, req.findings,
                           armed.round, armed.generation, aggregate.Some?, aggregate, caught);
      ledger := ledger + [VerdictEvent(v)];
      assert ledger[|ledger| - 1] == VerdictEvent(v) && VerdictEvent(v) in ledger;
      if aggregate.Some? {
        Announce(armed, aggregate.value);
      }
      SettleLensReport(job, settleFails);
      r := Ok(ViewOf(v));
    }

    method PushBack(req: PushbackRequest) returns (r: Result<Pushback, Code>)
      modifies this`ledger
      ensures var (outcome, appended) := PushingBack(old(ledger), req);
              r == outcome && ledger == old(ledger) + appended && |appended| <= 1
      ensures r.Err? ==> ledger == old(ledger)
      ensures r.Ok? ==> PushbackEvent(r.value) in ledger && r.value.reason == req.reason
    {
      hide DecisiveVerdict, GenerationPushback;
      var armed := ArmedBySha(ledger, req.sha, req.repo);
      if armed.None? {
        return Err(NotCommissioned);
      }
      var verdicts := ReviewVerdicts(ledger, armed.value.reviewId);
      if AggregateOf(DecisiveVerdict(verdicts, armed.value.generation)) == Some(Ready) {
        return Err(AlreadyReady);
      }
      var existing := GenerationPushback(ReviewPushbacks(ledger, armed.value.reviewId), armed.value.generation);
      if existing.Some? {
        ReadsWereRecorded(ledger, armed.value.reviewId);
        PushbackIsAmong(ReviewPushbacks(ledger, armed.value.reviewId), armed.value.generation);
        return if existing.value.reason == req.reason then Ok(existing.value) else Err(PushbackConflict);
      }
      var p := Pushback(armed.value.reviewId, armed.value.sha, armed.value.generation, req.reason, req.author);
      ledger := ledger + [PushbackEvent(p)];
      assert ledger[|ledger| - 1] == PushbackEvent(p);
      r := Ok(p);
    }

    // None is the whole gate switched off.
    method AdmitDispatch(input: DispatchInput) returns (r: Option<GateResult>)
      modifies this`ledger
      ensures !enabled ==> r.None? && ledger == old(ledger)
      ensures enabled ==> var (outcome, appended) := Admitting(old(ledger), stage, input);
                          r == Some(outcome) && ledger == old(ledger) + appended && |appended| <= 1
      ensures r.Some? && r.value.Admitted? ==> ledger == old(ledger)
      ensures r.Some? && r.value.RefusedGate? ==>
                ledger == if r.value.refusal.Some? then old(ledger) + [RefusedEvent(r.value.refusal.value)] else old(ledger)
    {
      hide EvaluateDispatch;
      if !enabled {
        return None;
      }
      var outcome := EvaluateDispatch(ledger, stage, input);
      if outcome.RefusedGate? && outcome.refusal.Some? {
        ledger := ledger + [RefusedEvent(outcome.refusal.value)];
      }
      r := Some(outcome);
    }
  }

  // The generation of the verdict recorded last.
  function Generation(ledger: Ledger): nat {
    if |ledger| > 0 && ledger[|ledger| - 1].VerdictEvent? then ledger[|ledger| - 1].verdict.generation else 0
  }

  lemma OneMoreLens(jobs: Jobs, armed: Armed, i: nat)
    requires i < |armed.lenses|
    ensures var job := LensJob(armed.reviewId, armed.lenses[i]);
            MissingJobs(jobs, armed, armed.lenses[..i + 1])
            == MissingJobs(jobs, armed, armed.lenses[..i]) + (if job in jobs then {} else {job})
  {
    assert armed.lenses[..i + 1] == armed.lenses[..i] + [armed.lenses[i]];
  }

  lemma LatestWasRecorded(ledger: Ledger, id: ReviewId, lens: Lens)
    ensures var latest := LatestLensVerdict(ReviewVerdicts(ledger, id), lens);
            latest.Some? ==> VerdictEvent(latest.value) in ledger && latest.value.lens == lens
  {
    LatestIsAmong(ReviewVerdicts(ledger, id), lens);
    ReadsWereRecorded(ledger, id);
  }
}
