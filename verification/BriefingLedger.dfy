// The durable events of the briefing review and the readers over them
// (src/briefing-review/events.ts). The ledger is an append-only sequence.
module BriefingLedger {
  import opened Outcomes
  import opened BriefingTypes

  datatype Armed = Armed(
    reviewId: ReviewId, commissionKey: CommissionKey, chainKey: ChainKey, sha: BriefingSha,
    repoPath: string, title: string, tier: Tier, justification: string,
    round: nat, generation: nat, lenses: seq<Lens>, headSha: Option<string>, upgradedFrom: Option<nat>)

  datatype LensVerdict = LensVerdict(
    reviewId: ReviewId, chainKey: ChainKey, sha: BriefingSha, lens: Lens, verdict: Verdict,
    findings: seq<Finding>, round: nat, generation: nat,
    decisive: bool, aggregate: Option<Verdict>, caught: nat)

  datatype Pushback = Pushback(reviewId: ReviewId, sha: BriefingSha, generation: nat, reason: string, author: string)

  datatype RefusalReason = Missing | Pending | HeldChangesNeeded

  datatype Refusal = Refusal(
    repoPath: string, title: string, sha: BriefingSha, jobId: string, tier: Tier, reason: RefusalReason)

  datatype Event =
    | ArmedEvent(armed: Armed)
    | VerdictEvent(verdict: LensVerdict)
    | PushbackEvent(pushback: Pushback)
    | RefusedEvent(refusal: Refusal)

  type Ledger = seq<Event>

  const ARMED_READ_LIMIT: nat := 200
  const VERDICT_READ_LIMIT: nat := 5000
  const PUSHBACK_READ_LIMIT: nat := 200

  // ---- Every event about one review, one chain, one briefing -------------------

  function ArmedOf(ledger: Ledger, id: ReviewId): seq<Armed> {
    if |ledger| == 0 then []
    else
      var e := ledger[|ledger| - 1];
      ArmedOf(ledger[..|ledger| - 1], id) + (if e.ArmedEvent? && e.armed.reviewId == id then [e.armed] else [])
  }

  function ChainOf(ledger: Ledger, key: ChainKey): seq<Armed> {
    if |ledger| == 0 then []
    else
      var e := ledger[|ledger| - 1];
      ChainOf(ledger[..|ledger| - 1], key) + (if e.ArmedEvent? && e.armed.chainKey == key then [e.armed] else [])
  }

  function ShaOf(ledger: Ledger, sha: BriefingSha, repo: string): seq<Armed> {
    if |ledger| == 0 then []
    else
      var e := ledger[|ledger| - 1];
      ShaOf(ledger[..|ledger| - 1], sha, repo)
      + (if e.ArmedEvent? && e.armed.sha == sha && e.armed.repoPath == repo then [e.armed] else [])
  }

  function VerdictsOf(ledger: Ledger, id: ReviewId): seq<LensVerdict> {
    if |ledger| == 0 then []
    else
      var e := ledger[|ledger| - 1];
      VerdictsOf(ledger[..|ledger| - 1], id) + (if e.VerdictEvent? && e.verdict.reviewId == id then [e.verdict] else [])
  }

  function PushbacksOf(ledger: Ledger, id: ReviewId): seq<Pushback> {
    if |ledger| == 0 then []
    else
      var e := ledger[|ledger| - 1];
      PushbacksOf(ledger[..|ledger| - 1], id)
      + (if e.PushbackEvent? && e.pushback.reviewId == id then [e.pushback] else [])
  }

  // ---- The bounded readers -------------------------------------------------------

  function Limited<T>(limit: nat, rows: seq<T>): seq<T> {
    if |rows| <= limit then rows else rows[..limit]
  }

  function ArmedGenerations(ledger: Ledger, id: ReviewId): seq<Armed> {
    Limited(ARMED_READ_LIMIT, ArmedOf(ledger, id))
  }

  function LatestArmed(ledger: Ledger, id: ReviewId): Option<Armed> {
    Newest(ArmedGenerations(ledger, id))
  }

  function Newest<T>(rows: seq<T>): Option<T> {
    if |rows| == 0 then None else Some(rows[|rows| - 1])
  }

  // The newest armed record of one exact briefing in one repository, read
  // newest first by its digest.
  function ArmedBySha(ledger: Ledger, sha: BriefingSha, repo: string): Option<Armed> {
    Newest(ShaOf(ledger, sha, repo))
  }

  function ReviewVerdicts(ledger: Ledger, id: ReviewId): seq<LensVerdict> {
    Limited(VERDICT_READ_LIMIT, VerdictsOf(ledger, id))
  }

  function ReviewPushbacks(ledger: Ledger, id: ReviewId): seq<Pushback> {
    Limited(PUSHBACK_READ_LIMIT, PushbacksOf(ledger, id))
  }

  // ---- Views over one review's verdicts ---------------------------------------------

  function LatestLensVerdict(verdicts: seq<LensVerdict>, lens: Lens): Option<LensVerdict> {
    if |verdicts| == 0 then None
    else if verdicts[|verdicts| - 1].lens == lens then Some(verdicts[|verdicts| - 1])
    else LatestLensVerdict(verdicts[..|verdicts| - 1], lens)
  }

  // The decisive verdict of one generation.
  function DecisiveVerdict(verdicts: seq<LensVerdict>, generation: nat): Option<LensVerdict> {
    if |verdicts| == 0 then None
    else if verdicts[|verdicts| - 1].decisive && verdicts[|verdicts| - 1].generation == generation
      then Some(verdicts[|verdicts| - 1])
    else DecisiveVerdict(verdicts[..|verdicts| - 1], generation)
  }

  // The newest decisive verdict of any generation.
  function AnyDecisive(verdicts: seq<LensVerdict>): Option<LensVerdict> {
    if |verdicts| == 0 then None
    else if verdicts[|verdicts| - 1].decisive then Some(verdicts[|verdicts| - 1])
    else AnyDecisive(verdicts[..|verdicts| - 1])
  }

  function AggregateOf(verdict: Option<LensVerdict>): Option<Verdict> {
    if verdict.Some? then verdict.value.aggregate else None
  }

  predicate LensReady(verdicts: seq<LensVerdict>, lens: Lens) {
    var latest := LatestLensVerdict(verdicts, lens);
    latest.Some? && latest.value.verdict.Ready?
  }

  predicate EveryLensReady(verdicts: seq<LensVerdict>, lenses: seq<Lens>) {
    forall l :: l in lenses ==> LensReady(verdicts, l)
  }

  // ---- The chain: distinct reviews in the order they were first armed -----------------

  function IdsOf(rows: seq<Armed>): seq<ReviewId> {
    if |rows| == 0 then [] else IdsOf(rows[..|rows| - 1]) + [rows[|rows| - 1].reviewId]
  }

  function Distinct(ids: seq<ReviewId>): seq<ReviewId> {
    if |ids| == 0 then []
    else
      var before := Distinct(ids[..|ids| - 1]);
      if ids[|ids| - 1] in before then before else before + [ids[|ids| - 1]]
  }

  function ReviewOrder(ledger: Ledger, key: ChainKey): seq<ReviewId> {
    Distinct(IdsOf(ChainOf(ledger, key)))
  }

  predicate ReachedChangesNeeded(ledger: Ledger, id: ReviewId) {
    AggregateOf(AnyDecisive(ReviewVerdicts(ledger, id))) == Some(ChangesNeeded)
  }

  // The run of CHANGES-NEEDED rounds at the end of an order of reviews.
  function TrailingRun(ledger: Ledger, order: seq<ReviewId>): nat {
    if |order| == 0 || !ReachedChangesNeeded(ledger, order[|order| - 1]) then 0
    else 1 + TrailingRun(ledger, order[..|order| - 1])
  }

  method TrailingChangesNeeded(ledger: Ledger, key: ChainKey) returns (trailing: nat)
    ensures trailing == TrailingRun(ledger, ReviewOrder(ledger, key))
  {
    var order := ReviewOrder(ledger, key);
    trailing := 0;
    var i := |order|;
    assert order[..i] == order;
    while i > 0
      invariant 0 <= i <= |order|
      invariant trailing + TrailingRun(ledger, order[..i]) == TrailingRun(ledger, order)
      decreases i
    {
      assert order[..i][..i - 1] == order[..i - 1];
      if !ReachedChangesNeeded(ledger, order[i - 1]) {
        return;
      }
      trailing := trailing + 1;
      i := i - 1;
    }
  }

  // ---- What an accepted READY revision caught ------------------------------------------

  function IndexOfReview(order: seq<ReviewId>, id: ReviewId): int {
    if |order| == 0 then -1
    else if order[0] == id then 0
    else var rest := IndexOfReview(order[1..], id); if rest < 0 then -1 else rest + 1
  }

  function BlockingByLens(verdicts: seq<LensVerdict>, lenses: seq<Lens>): nat {
    if |lenses| == 0 then 0
    else
      var latest := LatestLensVerdict(verdicts, lenses[0]);
      (if latest.Some? then BlockingFindings(latest.value.findings) else 0) + BlockingByLens(verdicts, lenses[1..])
  }

  function CaughtByRevision(ledger: Ledger, key: ChainKey, id: ReviewId): nat {
    var order := ReviewOrder(ledger, key);
    var index := IndexOfReview(order, id);
    if index <= 0 then 0
    else PreviousBlocking(ledger, order, index)
  }

  function PreviousBlocking(ledger: Ledger, order: seq<ReviewId>, index: int): nat {
    if !(0 < index <= |order|) then 0
    else
      var previous := order[index - 1];
      if !ReachedChangesNeeded(ledger, previous) then 0
      else BlockingByLens(ReviewVerdicts(ledger, previous), LENSES)
  }

  // ---- One more event --------------------------------------------------------------------

  lemma Appended(ledger: Ledger, e: Event)
    ensures forall id :: ArmedOf(ledger + [e], id) ==
              if e.ArmedEvent? && e.armed.reviewId == id then ArmedOf(ledger, id) + [e.armed] else ArmedOf(ledger, id)
    ensures forall id :: VerdictsOf(ledger + [e], id) ==
              if e.VerdictEvent? && e.verdict.reviewId == id then VerdictsOf(ledger, id) + [e.verdict] else VerdictsOf(ledger, id)
    ensures forall id :: PushbacksOf(ledger + [e], id) ==
              if e.PushbackEvent? && e.pushback.reviewId == id then PushbacksOf(ledger, id) + [e.pushback]
              else PushbacksOf(ledger, id)
  {
    assert (ledger + [e])[..|ledger|] == ledger;
  }

  lemma ShaAppended(ledger: Ledger, e: Event, sha: BriefingSha, repo: string)
    ensures ShaOf(ledger + [e], sha, repo) ==
              if e.ArmedEvent? && e.armed.sha == sha && e.armed.repoPath == repo then ShaOf(ledger, sha, repo) + [e.armed]
              else ShaOf(ledger, sha, repo)
  {
    assert (ledger + [e])[..|ledger|] == ledger;
  }

  lemma ChainAppended(ledger: Ledger, e: Event, key: ChainKey)
    ensures ChainOf(ledger + [e], key) ==
              if e.ArmedEvent? && e.armed.chainKey == key then ChainOf(ledger, key) + [e.armed] else ChainOf(ledger, key)
    ensures ReviewOrder(ledger + [e], key) ==
              if e.ArmedEvent? && e.armed.chainKey == key && e.armed.reviewId !in ReviewOrder(ledger, key)
              then ReviewOrder(ledger, key) + [e.armed.reviewId]
              else ReviewOrder(ledger, key)
  {
    assert (ledger + [e])[..|ledger|] == ledger;
    var rows := ChainOf(ledger, key);
    if e.ArmedEvent? && e.armed.chainKey == key {
      assert (rows + [e.armed])[..|rows|] == rows;
      var ids := IdsOf(rows);
      assert (ids + [e.armed.reviewId])[..|ids|] == ids;
    } else {
      assert rows + [] == rows;
    }
  }

  // What the readers return was recorded.
  lemma {:induction false} ReadsWereRecorded(ledger: Ledger, id: ReviewId)
    ensures forall v :: v in VerdictsOf(ledger, id) ==> VerdictEvent(v) in ledger
    ensures forall p :: p in PushbacksOf(ledger, id) ==> PushbackEvent(p) in ledger
  {
    if |ledger| > 0 {
      ReadsWereRecorded(ledger[..|ledger| - 1], id);
    }
  }

  lemma {:induction false} LatestIsAmong(verdicts: seq<LensVerdict>, lens: Lens)
    ensures LatestLensVerdict(verdicts, lens).Some? ==>
              LatestLensVerdict(verdicts, lens).value in verdicts && LatestLensVerdict(verdicts, lens).value.lens == lens
  {
    if |verdicts| > 0 { LatestIsAmong(verdicts[..|verdicts| - 1], lens); }
  }

  lemma {:induction false} DistinctIsDistinct(ids: seq<ReviewId>)
    ensures forall i, j :: 0 <= i < j < |Distinct(ids)| ==> Distinct(ids)[i] != Distinct(ids)[j]
    ensures forall id :: id in Distinct(ids) <==> id in ids
  {
    if |ids| > 0 {
      DistinctIsDistinct(ids[..|ids| - 1]);
      assert ids == ids[..|ids| - 1] + [ids[|ids| - 1]];
    }
  }
}
