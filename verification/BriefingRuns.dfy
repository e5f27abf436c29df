// What every run of the briefing review keeps: the facts about each review's
// generations, verdicts and push-backs, and about each chain's rounds.
module BriefingRuns {
  import opened Outcomes
  import opened BriefingTypes
  import opened BriefingLedger
  import opened BriefingService

  // ---- Runs ------------------------------------------------------------------

  datatype State = State(ledger: Ledger, jobs: Jobs)

  datatype Step =
    | Commission(req: CommissionRequest, headSha: Option<string>)
    | Dispatch(armed: Armed, lens: Lens, row: Option<string>)
    | Submit(result: ResultRequest)
    | PushBack(pushback: PushbackRequest)
    | Admit(stage: Stage, input: DispatchInput)

  // A lens job is dispatched on behalf of some commission's armed record.
  predicate Enabled(s: State, step: Step) {
    step.Dispatch? ==>
      && ArmedEvent(step.armed) in s.ledger && step.lens in step.armed.lenses
      && LensJob(step.armed.reviewId, step.lens) !in s.jobs
  }

  // The events one step appends.
  function NewEvents(s: State, step: Step): seq<Event> {
    match step
    case Commission(req, headSha) => Arming(s.ledger, req, headSha).1
    case Dispatch(_, _, _) => []
    case Submit(req) => Submitting(s.ledger, s.jobs, req).1
    case PushBack(req) => PushingBack(s.ledger, req).1
    case Admit(stage, input) => Admitting(s.ledger, stage, input).1
  }

  function Apply(s: State, step: Step): State {
    State(s.ledger + NewEvents(s, step),
          if step.Dispatch? then s.jobs[LensJob(step.armed.reviewId, step.lens) := step.row] else s.jobs)
  }

  predicate Legal(s: State, steps: seq<Step>) {
    |steps| == 0
    || var last := |steps| - 1;
       Legal(s, steps[..last]) && Enabled(After(s, steps[..last]), steps[last])
  }

  function After(s: State, steps: seq<Step>): State {
    if |steps| == 0 then s else Apply(After(s, steps[..|steps| - 1]), steps[|steps| - 1])
  }

  const START: State := State([], map[])

  // ---- Facts about one review ----------------------------------------------------

  // Its generations: numbered from one, one chain and one round for life, the
  // tier strictly rising and the lenses exactly the tier's.
  ghost predicate ArmedFacts(id: ReviewId, a: seq<Armed>) {
    && (forall i :: 0 <= i < |a| ==>
          && a[i].reviewId == id && a[i].sha == BriefingSha(id.briefing) && a[i].repoPath == id.repo
          && a[i].generation == i + 1 && a[i].lenses == TierLenses(a[i].tier)
          && a[i].round == a[0].round && a[i].round >= 1
          && a[i].title == a[0].title && a[i].chainKey == ChainKey(id.repo, a[0].title)
          && a[i].commissionKey == CommissionKey(id.briefing, id.repo, a[i].tier)
          && a[i].upgradedFrom == if i == 0 then None else Some(i))
    && (forall i, j :: 0 <= i < j < |a| ==> TierRank(a[i].tier) < TierRank(a[j].tier))
  }

  ghost predicate Reported(v: seq<LensVerdict>, lens: Lens) {
    exists i :: 0 <= i < |v| && v[i].lens == lens
  }

  ghost predicate AllReported(v: seq<LensVerdict>, lenses: seq<Lens>) {
    forall l :: l in lenses ==> Reported(v, l)
  }

  ghost predicate AllReady(v: seq<LensVerdict>) {
    forall i :: 0 <= i < |v| ==> v[i].verdict.Ready?
  }

  ghost predicate Undecided(v: seq<LensVerdict>) {
    forall i :: 0 <= i < |v| ==> !v[i].decisive
  }

  // Its lens results: one per armed lens, bound to the review's own chain.
  ghost predicate VerdictFacts(id: ReviewId, a: seq<Armed>, v: seq<LensVerdict>) {
    && (|v| > 0 ==> |a| > 0)
    && (forall i :: 0 <= i < |v| ==>
          && v[i].reviewId == id && v[i].lens in a[|a| - 1].lenses && 1 <= v[i].generation <= |a|
          && v[i].chainKey == a[0].chainKey && v[i].round == a[0].round
          && (v[i].decisive <==> v[i].aggregate.Some?)
          && (v[i].verdict.Ready? <==> BlockingFindings(v[i].findings) == 0))
    && (forall i, j :: 0 <= i < j < |v| ==> v[i].lens != v[j].lens)
  }

  // Its decision: at most one, in the newest generation, made as soon as the
  // results settle it and agreeing with all of them.
  ghost predicate DecisionFacts(a: seq<Armed>, v: seq<LensVerdict>) {
    && (forall i :: 0 <= i < |v| && v[i].decisive ==>
          && v[i].generation == |a|
          && v[i].aggregate == Some(v[i].verdict)
          && (v[i].verdict.Ready? ==> AllReady(v) && |a| > 0 && AllReported(v, a[|a| - 1].lenses)))
    && (forall i, j :: 0 <= i < j < |v| ==> !(v[i].decisive && v[j].decisive))
    && (|a| > 0 && Undecided(v) ==> AllReady(v) && !AllReported(v, a[|a| - 1].lenses))
  }

  ghost predicate PushbackFacts(id: ReviewId, a: seq<Armed>, p: seq<Pushback>) {
    && (forall i :: 0 <= i < |p| ==> p[i].reviewId == id && 1 <= p[i].generation <= |a|)
    && (forall i, j :: 0 <= i < j < |p| ==> p[i].generation != p[j].generation)
  }

  ghost predicate ReviewFacts(id: ReviewId, a: seq<Armed>, v: seq<LensVerdict>, p: seq<Pushback>) {
    ArmedFacts(id, a) && VerdictFacts(id, a, v) && DecisionFacts(a, v) && PushbackFacts(id, a, p)
  }

  ghost predicate ReviewOk(ledger: Ledger, id: ReviewId) {
    ReviewFacts(id, ArmedOf(ledger, id), VerdictsOf(ledger, id), PushbacksOf(ledger, id))
  }

  // ---- Facts about one chain --------------------------------------------------------

  // The chain's k-th distinct review has round k, and its reviews are exactly
  // the armed ones that carry its key.
  ghost predicate ChainOk(ledger: Ledger, key: ChainKey) {
    var order := ReviewOrder(ledger, key);
    && (forall k :: 0 <= k < |order| ==>
          |ArmedOf(ledger, order[k])| > 0 && ArmedOf(ledger, order[k])[0].round == k + 1
          && ArmedOf(ledger, order[k])[0].chainKey == key)
    && (forall id :: |ArmedOf(ledger, id)| > 0 && ArmedOf(ledger, id)[0].chainKey == key ==> id in order)
  }

  ghost predicate ShaOk(ledger: Ledger, id: ReviewId) {
    ShaOf(ledger, BriefingSha(id.briefing), id.repo) == ArmedOf(ledger, id)
  }

  ghost predicate LedgerOk(ledger: Ledger) {
    && (forall id :: ReviewOk(ledger, id))
    && (forall key :: ChainOk(ledger, key))
    && (forall id :: ShaOk(ledger, id))
  }

  lemma FactsOf(ledger: Ledger, id: ReviewId)
    requires LedgerOk(ledger)
    ensures ReviewOk(ledger, id) && ShaOk(ledger, id)
  {
  }

  lemma ChainFactsOf(ledger: Ledger, key: ChainKey)
    requires LedgerOk(ledger)
    ensures ChainOk(ledger, key)
  {
  }

  // ---- Reading a ledger whose facts hold -----------------------------------------------

  lemma {:induction false} RankIsAtLeastIndex(a: seq<Armed>, i: nat)
    requires forall i, j :: 0 <= i < j < |a| ==> TierRank(a[i].tier) < TierRank(a[j].tier)
    requires i < |a|
    ensures TierRank(a[i].tier) >= i
  {
    if i > 0 { RankIsAtLeastIndex(a, i - 1); }
  }

  lemma RisingTiersAreFew(a: seq<Armed>)
    requires forall i, j :: 0 <= i < j < |a| ==> TierRank(a[i].tier) < TierRank(a[j].tier)
    ensures |a| <= 3
  {
    if |a| > 0 { RankIsAtLeastIndex(a, |a| - 1); }
  }

  function LensesIn(v: seq<LensVerdict>): set<Lens> {
    if |v| == 0 then {} else LensesIn(v[..|v| - 1]) + {v[|v| - 1].lens}
  }

  lemma {:induction false} LensesInCount(v: seq<LensVerdict>)
    requires forall i, j :: 0 <= i < j < |v| ==> v[i].lens != v[j].lens
    ensures |LensesIn(v)| == |v|
    ensures forall l :: l in LensesIn(v) ==> exists i :: 0 <= i < |v| && v[i].lens == l
  {
    if |v| > 0 {
      var init := v[..|v| - 1];
      LensesInCount(init);
      forall l | l in LensesIn(init) ensures l != v[|v| - 1].lens && exists i :: 0 <= i < |v| && v[i].lens == l {
        var i :| 0 <= i < |init| && init[i].lens == l;
        assert v[i].lens == l;
      }
    }
  }

  lemma LensesAreFew(some: set<Lens>)
    ensures |some| <= 5
  {
    var all := {Stranger, Acceptance, Verification, Repo, Scope};
    forall l: Lens ensures l in all {
      assert l.Stranger? || l.Acceptance? || l.Verification? || l.Repo? || l.Scope?;
    }
    assert all == some + (all - some);
  }

  lemma DistinctLensesAreFew(v: seq<LensVerdict>)
    requires forall i, j :: 0 <= i < j < |v| ==> v[i].lens != v[j].lens
    ensures |v| <= 5
  {
    LensesInCount(v);
    LensesAreFew(LensesIn(v));
  }

  lemma {:induction false} PushbacksAreFew(p: seq<Pushback>, n: nat)
    requires forall i :: 0 <= i < |p| ==> 1 <= p[i].generation <= n
    requires forall i, j :: 0 <= i < j < |p| ==> p[i].generation != p[j].generation
    ensures |p| <= n
  {
    if |p| == 0 {
    } else if n > 0 && p[0].generation == n {
      PushbacksAreFew(p[1..], n - 1);
    } else if i :| 0 <= i < |p| && p[i].generation == n {
      var rest := p[..i] + p[i + 1..];
      PushbacksAreFew(rest, n - 1);
    } else {
      PushbacksAreFew(p, n - 1);
    }
  }

  // The per-review reads are never cut by their limits.
  lemma ReadsAreWhole(ledger: Ledger, id: ReviewId)
    requires ReviewOk(ledger, id)
    ensures |ArmedOf(ledger, id)| <= 3 && |VerdictsOf(ledger, id)| <= 5 && |PushbacksOf(ledger, id)| <= 3
    ensures ArmedGenerations(ledger, id) == ArmedOf(ledger, id)
    ensures ReviewVerdicts(ledger, id) == VerdictsOf(ledger, id)
    ensures ReviewPushbacks(ledger, id) == PushbacksOf(ledger, id)
  {
    RisingTiersAreFew(ArmedOf(ledger, id));
    DistinctLensesAreFew(VerdictsOf(ledger, id));
    PushbacksAreFew(PushbacksOf(ledger, id), |ArmedOf(ledger, id)|);
  }

  lemma {:induction false} LatestLensIsUnique(v: seq<LensVerdict>, lens: Lens)
    requires forall i, j :: 0 <= i < j < |v| ==> v[i].lens != v[j].lens
    ensures LatestLensVerdict(v, lens).Some? <==> Reported(v, lens)
    ensures forall i :: 0 <= i < |v| && v[i].lens == lens ==> LatestLensVerdict(v, lens) == Some(v[i])
  {
    if |v| > 0 {
      var init, last := v[..|v| - 1], v[|v| - 1];
      LatestLensIsUnique(init, lens);
      assert forall i :: 0 <= i < |init| ==> init[i] == v[i];
      assert last.lens == lens ==> Reported(v, lens);
    }
  }

  lemma {:induction false} DecisiveReads(v: seq<LensVerdict>, generation: nat)
    requires forall i, j :: 0 <= i < j < |v| ==> !(v[i].decisive && v[j].decisive)
    requires forall i :: 0 <= i < |v| && v[i].decisive ==> v[i].generation == generation
    ensures DecisiveVerdict(v, generation) == AnyDecisive(v)
    ensures AnyDecisive(v).None? <==> Undecided(v)
    ensures forall i :: 0 <= i < |v| && v[i].decisive ==> AnyDecisive(v) == Some(v[i])
    ensures AnyDecisive(v).Some? ==> AnyDecisive(v).value in v && AnyDecisive(v).value.decisive
  {
    if |v| > 0 {
      DecisiveReads(v[..|v| - 1], generation);
      assert forall i :: 0 <= i < |v| - 1 ==> v[..|v| - 1][i] == v[i];
    }
  }

  // The newest generation's verdict is the review's only one: reading one
  // generation or any gives the same answer.
  lemma OneDecisiveVerdict(ledger: Ledger, id: ReviewId)
    requires ReviewOk(ledger, id) && LatestArmed(ledger, id).Some?
    ensures DecisiveVerdict(ReviewVerdicts(ledger, id), LatestArmed(ledger, id).value.generation)
            == AnyDecisive(ReviewVerdicts(ledger, id))
    ensures AnyDecisive(VerdictsOf(ledger, id)).None? <==> Undecided(VerdictsOf(ledger, id))
  {
    ReadsAreWhole(ledger, id);
    DecisiveReads(VerdictsOf(ledger, id), |ArmedOf(ledger, id)|);
  }

  lemma LatestIsLast(ledger: Ledger, id: ReviewId)
    requires LedgerOk(ledger)
    ensures LatestArmed(ledger, id) == Newest(ArmedOf(ledger, id))
    ensures ArmedBySha(ledger, BriefingSha(id.briefing), id.repo) == LatestArmed(ledger, id)
  {
    assert ReviewOk(ledger, id) && ShaOk(ledger, id);
    ReadsAreWhole(ledger, id);
  }

  // ---- One more armed record -------------------------------------------------------------

  lemma AddArmedToReview(id: ReviewId, a: seq<Armed>, v: seq<LensVerdict>, p: seq<Pushback>, x: Armed)
    requires ReviewFacts(id, a, v, p) && ArmedFacts(id, a + [x]) && Undecided(v)
    ensures ReviewFacts(id, a + [x], v, p)
  {
    if |a| > 0 {
      assert (a + [x])[|a| - 1].tier == a[|a| - 1].tier && (a + [x])[|a|].tier == x.tier;
      RaisedLensesAreTheTiers(a[|a| - 1].tier, x.tier);
      assert forall l :: l in a[|a| - 1].lenses ==> l in x.lenses;
    } else {
      assert (a + [x])[0] == x;
      assert Stranger in x.lenses && !Reported(v, Stranger);
    }
  }

  // The facts of a chain, from its order and the first record of each review.
  ghost predicate Heads(order: seq<ReviewId>, key: ChainKey, first: ReviewId -> Option<Armed>) {
    && (forall k :: 0 <= k < |order| ==>
          first(order[k]).Some? && first(order[k]).value.round == k + 1 && first(order[k]).value.chainKey == key)
    && (forall id :: first(id).Some? && first(id).value.chainKey == key ==> id in order)
  }

  function FirstOf(ledger: Ledger, id: ReviewId): Option<Armed> {
    var a := ArmedOf(ledger, id);
    if |a| == 0 then None else Some(a[0])
  }

  lemma ChainOkIsHeads(ledger: Ledger, key: ChainKey)
    ensures ChainOk(ledger, key) <==> Heads(ReviewOrder(ledger, key), key, id => FirstOf(ledger, id))
  {
    hide ArmedOf, ReviewOrder;
    var first := (id: ReviewId) => FirstOf(ledger, id);
    assert forall id :: first(id) == FirstOf(ledger, id);
    if ChainOk(ledger, key) {
      assert forall id :: first(id).Some? ==> |ArmedOf(ledger, id)| > 0;
    }
    if Heads(ReviewOrder(ledger, key), key, first) {
      forall id | |ArmedOf(ledger, id)| > 0 && ArmedOf(ledger, id)[0].chainKey == key ensures id in ReviewOrder(ledger, key) {
        assert first(id).Some?;
      }
    }
  }

  lemma AddArmedToChain(ledger: Ledger, x: Armed, key: ChainKey)
    requires LedgerOk(ledger) && ArmedFacts(x.reviewId, ArmedOf(ledger, x.reviewId) + [x])
    requires |ArmedOf(ledger, x.reviewId)| == 0 ==> x.round == |ReviewOrder(ledger, x.chainKey)| + 1
    ensures ChainOk(ledger + [ArmedEvent(x)], key)
  {
    hide ReviewOk, ArmedOf, VerdictsOf, PushbacksOf, ReviewOrder, ShaOk, ChainOk, Heads;
    var after := ledger + [ArmedEvent(x)];
    var a := ArmedOf(ledger, x.reviewId);
    Appended(ledger, ArmedEvent(x));
    ChainAppended(ledger, ArmedEvent(x), key);
    assert ChainOk(ledger, key);
    ChainOkIsHeads(ledger, key);
    ChainOkIsHeads(after, key);
    FirstArmedStays(a, x);
    assert (a + [x])[|a|] == x;
    assert x.chainKey == (a + [x])[0].chainKey;
    assert forall id :: FirstOf(after, id) == if id == x.reviewId && |a| == 0 then Some(x) else FirstOf(ledger, id);
    HeadsGrow(ReviewOrder(ledger, key), key, id => FirstOf(ledger, id), id => FirstOf(after, id), x);
  }

  lemma HeadsGrow(order: seq<ReviewId>, key: ChainKey, first: ReviewId -> Option<Armed>, later: ReviewId -> Option<Armed>, x: Armed)
    requires Heads(order, key, first)
    requires forall id :: later(id) == if id == x.reviewId && first(id).None? then Some(x) else first(id)
    requires if first(x.reviewId).Some? then x.chainKey == first(x.reviewId).value.chainKey
             else x.chainKey == key ==> x.round == |order| + 1
    ensures Heads(if x.chainKey == key && x.reviewId !in order then order + [x.reviewId] else order, key, later)
  {
  }

  lemma FirstArmedStays(a: seq<Armed>, x: Armed)
    ensures (a + [x])[0] == if |a| == 0 then x else a[0]
  {
  }

  lemma AddArmedToReviews(ledger: Ledger, x: Armed, id: ReviewId)
    requires LedgerOk(ledger) && ArmedFacts(x.reviewId, ArmedOf(ledger, x.reviewId) + [x])
    requires Undecided(VerdictsOf(ledger, x.reviewId))
    ensures ReviewOk(ledger + [ArmedEvent(x)], id) && ShaOk(ledger + [ArmedEvent(x)], id)
  {
    hide ReviewFacts, ChainOk, ShaOf, ArmedOf, VerdictsOf, PushbacksOf, ArmedFacts, Undecided;
    Appended(ledger, ArmedEvent(x));
    ShaAppended(ledger, ArmedEvent(x), BriefingSha(id.briefing), id.repo);
    assert ReviewOk(ledger, id) && ShaOk(ledger, id);
    NewestFacts(x.reviewId, ArmedOf(ledger, x.reviewId), x);
    if id == x.reviewId {
      AddArmedToReview(id, ArmedOf(ledger, id), VerdictsOf(ledger, id), PushbacksOf(ledger, id), x);
    }
  }

  lemma NewestFacts(id: ReviewId, a: seq<Armed>, x: Armed)
    requires ArmedFacts(id, a + [x])
    ensures x.reviewId == id && x.sha == BriefingSha(id.briefing) && x.repoPath == id.repo
  {
    assert (a + [x])[|a|] == x;
  }

  lemma AddArmed(ledger: Ledger, x: Armed)
    requires LedgerOk(ledger) && ArmedFacts(x.reviewId, ArmedOf(ledger, x.reviewId) + [x])
    requires Undecided(VerdictsOf(ledger, x.reviewId))
    requires |ArmedOf(ledger, x.reviewId)| == 0 ==> x.round == |ReviewOrder(ledger, x.chainKey)| + 1
    ensures LedgerOk(ledger + [ArmedEvent(x)])
  {
    hide ReviewOk, ChainOk, ShaOk, ArmedFacts, Undecided, ArmedOf, VerdictsOf, ReviewOrder;
    var after := ledger + [ArmedEvent(x)];
    forall id ensures ReviewOk(after, id) && ShaOk(after, id) {
      AddArmedToReviews(ledger, x, id);
    }
    forall key ensures ChainOk(after, key) {
      AddArmedToChain(ledger, x, key);
    }
  }

  // ---- One more event of another kind -------------------------------------------------------

  lemma NoArmedEventKeepsChains(ledger: Ledger, e: Event)
    requires LedgerOk(ledger) && !e.ArmedEvent?
    ensures forall key :: ChainOk(ledger + [e], key)
    ensures forall id :: ShaOk(ledger + [e], id)
  {
    Appended(ledger, e);
    assert forall id :: ArmedOf(ledger + [e], id) == ArmedOf(ledger, id);
    forall key ensures ChainOk(ledger + [e], key) {
      assert ChainOk(ledger, key);
      ChainAppended(ledger, e, key);
    }
    forall id ensures ShaOk(ledger + [e], id) {
      assert ShaOk(ledger, id);
      ShaAppended(ledger, e, BriefingSha(id.briefing), id.repo);
    }
  }

  // The verdict a result adds, whatever order the results arrive in.
  ghost predicate SettlesRightly(a: seq<Armed>, v: seq<LensVerdict>, x: LensVerdict) {
    && |a| > 0 && x.lens in a[|a| - 1].lenses && !Reported(v, x.lens) && x.generation == |a|
    && x.chainKey == a[0].chainKey && x.round == a[0].round
    && (x.verdict.Ready? <==> BlockingFindings(x.findings) == 0)
    && (x.decisive <==> x.aggregate.Some?)
    && (x.decisive <==>
          && Undecided(v)
          && (x.verdict.ChangesNeeded? || forall l :: l in a[|a| - 1].lenses && l != x.lens ==> Reported(v, l)))
    && (x.decisive ==> x.aggregate == Some(x.verdict))
  }

  lemma AddVerdictToReview(id: ReviewId, a: seq<Armed>, v: seq<LensVerdict>, p: seq<Pushback>, x: LensVerdict)
    requires ReviewFacts(id, a, v, p) && x.reviewId == id && SettlesRightly(a, v, x)
    ensures ReviewFacts(id, a, v + [x], p)
  {
    hide ArmedFacts, PushbackFacts;
    var w := v + [x];
    var lenses := a[|a| - 1].lenses;
    assert w[|v|] == x;
    forall l ensures Reported(w, l) <==> Reported(v, l) || l == x.lens {
      if Reported(v, l) {
        var i :| 0 <= i < |v| && v[i].lens == l;
        assert w[i].lens == l;
      }
    }
    assert VerdictFacts(id, a, w);
    assert AllReady(w) <==> AllReady(v) && x.verdict.Ready? by {
      assert forall i :: 0 <= i < |v| ==> w[i] == v[i];
    }
    assert Undecided(w) <==> Undecided(v) && !x.decisive by {
      assert forall i :: 0 <= i < |v| ==> w[i] == v[i];
    }
    forall i | 0 <= i < |v| && v[i].decisive ensures v[i].verdict.ChangesNeeded? {
      assert AllReported(v, lenses) ==> Reported(v, x.lens);
    }
  }

  lemma AddVerdict(ledger: Ledger, x: LensVerdict)
    requires LedgerOk(ledger)
    requires SettlesRightly(ArmedOf(ledger, x.reviewId), VerdictsOf(ledger, x.reviewId), x)
    ensures LedgerOk(ledger + [VerdictEvent(x)])
  {
    hide ReviewFacts, ChainOk, ShaOf, ArmedOf, VerdictsOf, PushbacksOf;
    Appended(ledger, VerdictEvent(x));
    NoArmedEventKeepsChains(ledger, VerdictEvent(x));
    forall id ensures ReviewOk(ledger + [VerdictEvent(x)], id) {
      assert ReviewOk(ledger, id);
      if id == x.reviewId {
        AddVerdictToReview(id, ArmedOf(ledger, id), VerdictsOf(ledger, id), PushbacksOf(ledger, id), x);
      }
    }
  }

  lemma AddPushbackToReview(id: ReviewId, a: seq<Armed>, v: seq<LensVerdict>, p: seq<Pushback>, x: Pushback)
    requires ReviewFacts(id, a, v, p) && x.reviewId == id && 1 <= x.generation <= |a|
    requires forall i :: 0 <= i < |p| ==> p[i].generation != x.generation
    ensures ReviewFacts(id, a, v, p + [x])
  {
    hide ArmedFacts, VerdictFacts, DecisionFacts;
  }

  lemma AddPushback(ledger: Ledger, x: Pushback)
    requires LedgerOk(ledger) && 1 <= x.generation <= |ArmedOf(ledger, x.reviewId)|
    requires forall i :: 0 <= i < |PushbacksOf(ledger, x.reviewId)| ==>
               PushbacksOf(ledger, x.reviewId)[i].generation != x.generation
    ensures LedgerOk(ledger + [PushbackEvent(x)])
  {
    hide ReviewFacts, ChainOk, ShaOf, ArmedOf, VerdictsOf, PushbacksOf;
    Appended(ledger, PushbackEvent(x));
    NoArmedEventKeepsChains(ledger, PushbackEvent(x));
    forall id ensures ReviewOk(ledger + [PushbackEvent(x)], id) {
      assert ReviewOk(ledger, id);
      if id == x.reviewId {
        AddPushbackToReview(id, ArmedOf(ledger, id), VerdictsOf(ledger, id), PushbacksOf(ledger, id), x);
      }
    }
  }

  lemma AddRefused(ledger: Ledger, x: Refusal)
    requires LedgerOk(ledger)
    ensures LedgerOk(ledger + [RefusedEvent(x)])
  {
    hide ReviewFacts, ChainOk, ShaOf, ArmedOf, VerdictsOf, PushbacksOf;
    Appended(ledger, RefusedEvent(x));
    NoArmedEventKeepsChains(ledger, RefusedEvent(x));
    forall id ensures ReviewOk(ledger + [RefusedEvent(x)], id) {
      assert ReviewOk(ledger, id);
    }
  }

  // ---- Every service call keeps the facts ----------------------------------------------------

  lemma RaiseFacts(id: ReviewId, a: seq<Armed>, req: CommissionRequest)
    requires ArmedFacts(id, a) && |a| > 0 && id == ReviewId(req.briefing, req.repo)
    requires TierRank(req.tier) > TierRank(a[|a| - 1].tier)
    ensures ArmedFacts(id, a + [RaisedArmed(a[|a| - 1], req)])
  {
    var x := RaisedArmed(a[|a| - 1], req);
    RaisedLensesAreTheTiers(a[|a| - 1].tier, req.tier);
    var b := a + [x];
    assert b[|a|] == x && b[0] == a[0];
    forall i | 0 <= i < |a| ensures b[i] == a[i] && TierRank(a[i].tier) < TierRank(x.tier) {
      assert i < |a| - 1 ==> TierRank(a[i].tier) < TierRank(a[|a| - 1].tier);
    }
  }

  // What the service reads as "no decisive verdict in this generation".
  lemma NotDecidedIsUndecided(ledger: Ledger, id: ReviewId)
    requires LedgerOk(ledger) && |ArmedOf(ledger, id)| > 0
    ensures LatestArmed(ledger, id) == Some(ArmedOf(ledger, id)[|ArmedOf(ledger, id)| - 1])
    ensures LatestArmed(ledger, id).value.reviewId == id
    ensures IsDecided(ledger, LatestArmed(ledger, id).value) <==> !Undecided(VerdictsOf(ledger, id))
  {
    assert ReviewOk(ledger, id);
    ReadsAreWhole(ledger, id);
    OneDecisiveVerdict(ledger, id);
  }

  lemma NeverArmedHasNoVerdicts(ledger: Ledger, id: ReviewId)
    requires LedgerOk(ledger) && |ArmedOf(ledger, id)| == 0
    ensures LatestArmed(ledger, id).None? && VerdictsOf(ledger, id) == []
  {
    assert ReviewOk(ledger, id);
  }

  lemma FirstArmingIsSound(ledger: Ledger, req: CommissionRequest, headSha: Option<string>)
    requires LedgerOk(ledger) && |ArmedOf(ledger, ReviewId(req.briefing, req.repo))| == 0
    ensures var id := ReviewId(req.briefing, req.repo);
            var x := FirstArmed(ledger, req, headSha);
            && Arming(ledger, req, headSha).1
               == (if TrailingRun(ledger, ReviewOrder(ledger, ChainKey(req.repo, req.title))) >= ROUND_CAP then [] else [ArmedEvent(x)])
            && ArmedFacts(id, [x]) && Undecided(VerdictsOf(ledger, id))
  {
    hide ChainOk, ShaOk, ReviewOrder, TrailingRun, ReviewFacts, LatestArmed, ArmedOf, VerdictsOf;
    NeverArmedHasNoVerdicts(ledger, ReviewId(req.briefing, req.repo));
  }

  lemma RaisingIsSound(ledger: Ledger, req: CommissionRequest, headSha: Option<string>)
    requires LedgerOk(ledger) && |ArmedOf(ledger, ReviewId(req.briefing, req.repo))| > 0
    ensures var id := ReviewId(req.briefing, req.repo);
            var a := ArmedOf(ledger, id);
            var newest := a[|a| - 1];
            Arming(ledger, req, headSha).1 ==
              if TierRank(req.tier) > TierRank(newest.tier) && Undecided(VerdictsOf(ledger, id))
              then [ArmedEvent(RaisedArmed(newest, req))] else []
  {
    hide ChainOk, ShaOk, ReviewOrder, TrailingRun, ReviewFacts, LatestArmed, IsDecided, ArmedOf, VerdictsOf, TierRank, LedgerOk, Undecided;
    NotDecidedIsUndecided(ledger, ReviewId(req.briefing, req.repo));
  }

  // What a commission that arms something arms.
  lemma ArmingIsSound(ledger: Ledger, req: CommissionRequest, headSha: Option<string>)
    requires LedgerOk(ledger) && Arming(ledger, req, headSha).1 != []
    ensures var id := ReviewId(req.briefing, req.repo);
            var a := ArmedOf(ledger, id);
            var x := if |a| == 0 then FirstArmed(ledger, req, headSha) else RaisedArmed(a[|a| - 1], req);
            && Arming(ledger, req, headSha).1 == [ArmedEvent(x)] && x.reviewId == id
            && ArmedFacts(id, a + [x]) && Undecided(VerdictsOf(ledger, id))
            && (|a| == 0 || TierRank(req.tier) > TierRank(a[|a| - 1].tier))
  {
    hide Arming, TrailingRun, ReviewOrder, ArmedOf, VerdictsOf, TierRank, LedgerOk, Undecided;
    var id := ReviewId(req.briefing, req.repo);
    var a := ArmedOf(ledger, id);
    if |a| == 0 {
      FirstArmingIsSound(ledger, req, headSha);
      assert a + [FirstArmed(ledger, req, headSha)] == [FirstArmed(ledger, req, headSha)];
    } else {
      RaisingIsSound(ledger, req, headSha);
      GenerationsOf(ledger, id);
      RaiseFacts(id, a, req);
    }
  }

  lemma GenerationsOf(ledger: Ledger, id: ReviewId)
    requires LedgerOk(ledger)
    ensures ArmedFacts(id, ArmedOf(ledger, id))
  {
    assert ReviewOk(ledger, id);
  }

  lemma ArmingKeepsLedger(ledger: Ledger, req: CommissionRequest, headSha: Option<string>)
    requires LedgerOk(ledger)
    ensures LedgerOk(ledger + Arming(ledger, req, headSha).1)
  {
    hide LedgerOk, ArmedFacts, Undecided, Arming;
    var appended := Arming(ledger, req, headSha).1;
    if appended == [] {
      assert ledger + appended == ledger;
    } else {
      ArmingIsSound(ledger, req, headSha);
      AddArmed(ledger, appended[0].armed);
    }
  }

  // What a result that is accepted for the first time appends.
  lemma NewVerdictSettlesRightly(ledger: Ledger, jobs: Jobs, req: ResultRequest)
    requires LedgerOk(ledger) && ResultRefusal(ledger, jobs, req).None?
    requires LatestLensVerdict(ReviewVerdicts(ledger, ArmedBySha(ledger, req.sha, req.repo).value.reviewId), req.lens).None?
    ensures var id := ReviewId(req.sha.briefing, req.repo);
            var x := NewVerdict(ledger, ArmedBySha(ledger, req.sha, req.repo).value, req);
            x.reviewId == id && SettlesRightly(ArmedOf(ledger, id), VerdictsOf(ledger, id), x)
  {
    var id := ReviewId(req.sha.briefing, req.repo);
    LatestIsLast(ledger, id);
    assert ReviewOk(ledger, id);
    var a, v := ArmedOf(ledger, id), VerdictsOf(ledger, id);
    var armed := a[|a| - 1];
    ReadsAreWhole(ledger, id);
    OneDecisiveVerdict(ledger, id);
    forall l ensures LensReady(v, l) ==> Reported(v, l) {
      LatestLensIsUnique(v, l);
    }
    LatestLensIsUnique(v, req.lens);
    if Undecided(v) {
      forall l | Reported(v, l) ensures LensReady(v, l) {
        LatestLensIsUnique(v, l);
      }
    }
  }

  lemma SubmittingKeepsLedger(ledger: Ledger, jobs: Jobs, req: ResultRequest)
    requires LedgerOk(ledger)
    ensures LedgerOk(ledger + Submitting(ledger, jobs, req).1)
  {
    var appended := Submitting(ledger, jobs, req).1;
    if appended == [] {
      assert ledger + appended == ledger;
    } else {
      NewVerdictSettlesRightly(ledger, jobs, req);
      AddVerdict(ledger, NewVerdict(ledger, ArmedBySha(ledger, req.sha, req.repo).value, req));
    }
  }

  lemma {:induction false} GenerationPushbackReads(p: seq<Pushback>, generation: nat)
    ensures GenerationPushback(p, generation).None? <==>
            forall i :: 0 <= i < |p| ==> p[i].generation != generation
    ensures GenerationPushback(p, generation).Some? ==>
            GenerationPushback(p, generation).value in p && GenerationPushback(p, generation).value.generation == generation
  {
    if |p| > 0 {
      GenerationPushbackReads(p[..|p| - 1], generation);
      assert forall i :: 0 <= i < |p| - 1 ==> p[..|p| - 1][i] == p[i];
    }
  }

  lemma PushingBackKeepsLedger(ledger: Ledger, req: PushbackRequest)
    requires LedgerOk(ledger)
    ensures LedgerOk(ledger + PushingBack(ledger, req).1)
  {
    var appended := PushingBack(ledger, req).1;
    if appended == [] {
      assert ledger + appended == ledger;
    } else {
      var id := ReviewId(req.sha.briefing, req.repo);
      LatestIsLast(ledger, id);
      assert ReviewOk(ledger, id);
      ReadsAreWhole(ledger, id);
      GenerationPushbackReads(PushbacksOf(ledger, id), |ArmedOf(ledger, id)|);
      AddPushback(ledger, appended[0].pushback);
    }
  }

  lemma StepKeepsLedger(s: State, step: Step)
    requires LedgerOk(s.ledger) && Enabled(s, step)
    ensures LedgerOk(Apply(s, step).ledger)
  {
    match step
    case Commission(req, headSha) => ArmingKeepsLedger(s.ledger, req, headSha);
    case Dispatch(_, _, _) => assert s.ledger + [] == s.ledger;
    case Submit(req) => SubmittingKeepsLedger(s.ledger, s.jobs, req);
    case PushBack(req) => PushingBackKeepsLedger(s.ledger, req);
    case Admit(stage, input) =>
      var appended := Admitting(s.ledger, stage, input).1;
      if appended == [] {
        assert s.ledger + appended == s.ledger;
      } else {
        AddRefused(s.ledger, appended[0].refusal);
      }
  }

  lemma {:induction false} EveryLedgerIsOk(steps: seq<Step>)
    requires Legal(START, steps)
    ensures LedgerOk(After(START, steps).ledger)
  {
    if |steps| > 0 {
      EveryLedgerIsOk(steps[..|steps| - 1]);
      StepKeepsLedger(After(START, steps[..|steps| - 1]), steps[|steps| - 1]);
    }
  }
}
