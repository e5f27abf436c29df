// The vocabulary of the pre-dispatch briefing review
// (src/briefing-review/types.ts): tiers and their lenses, identities, stages,
// findings bound to evidence, and the markers around a reviewed briefing.
module BriefingTypes {
  import opened Outcomes
  import opened JavaScript

  datatype Tier = Low | Medium | High
  datatype Lens = Stranger | Acceptance | Verification | Repo | Scope
  datatype Verdict = Ready | ChangesNeeded
  datatype Stage = Auto | Stage1 | Stage2 | Stage3
  datatype Severity = Blocking | Advisory
  datatype Finding = Finding(code: string, severity: Severity, evidence: string, whyItBlocks: string)

  const ROUND_CAP: nat := 3
  const EVIDENCE_MIN: nat := 8
  const EVIDENCE_MAX: nat := 2000

  // The digests, taken as injective on what they digest.
  datatype BriefingSha = BriefingSha(briefing: string)
  datatype ReviewId = ReviewId(briefing: string, repo: string)
  datatype ChainKey = ChainKey(repo: string, title: string)
  datatype CommissionKey = CommissionKey(briefing: string, repo: string, tier: Tier)
  datatype LensJob = LensJob(review: ReviewId, lens: Lens)

  // ---- Tiers and lenses -------------------------------------------------------

  const LENSES: seq<Lens> := [Stranger, Acceptance, Verification, Repo, Scope]

  function TierLenses(tier: Tier): seq<Lens> {
    match tier
    case Low => [Stranger]
    case Medium => [Stranger, Acceptance, Verification]
    case High => LENSES
  }

  function TierRank(tier: Tier): nat {
    match tier
    case Low => 0
    case Medium => 1
    case High => 2
  }

  function KeepLenses(order: seq<Lens>, armed: set<Lens>): seq<Lens> {
    if |order| == 0 then []
    else (if order[0] in armed then [order[0]] else []) + KeepLenses(order[1..], armed)
  }

  // A union of lens sets, in the record's canonical order.
  function UnionLenses(left: seq<Lens>, right: seq<Lens>): seq<Lens> {
    KeepLenses(LENSES, (set l | l in left) + (set l | l in right))
  }

  lemma {:induction false} KeepLensesMembers(order: seq<Lens>, armed: set<Lens>)
    ensures forall l :: l in KeepLenses(order, armed) <==> l in order && l in armed
  {
    if |order| > 0 { KeepLensesMembers(order[1..], armed); }
  }

  // A raise's union is exactly the higher tier's own lens list.
  lemma RaisedLensesAreTheTiers(from: Tier, to: Tier)
    requires TierRank(from) <= TierRank(to)
    ensures UnionLenses(TierLenses(from), TierLenses(to)) == TierLenses(to)
    ensures forall l :: l in TierLenses(from) ==> l in TierLenses(to)
  {
    var armed := (set l | l in TierLenses(from)) + (set l | l in TierLenses(to));
    assert armed == set l | l in TierLenses(to);
    KeepTierLenses(to);
  }

  lemma KeepTierLenses(tier: Tier)
    ensures KeepLenses(LENSES, set l | l in TierLenses(tier)) == TierLenses(tier)
  {
    var armed := set l | l in TierLenses(tier);
    var one: seq<Lens> := [Scope];
    assert one[1..] == [];
    assert KeepLenses(one, armed) == if tier.High? then one else [];
    var two := [Repo, Scope];
    assert two[1..] == one;
    assert KeepLenses(two, armed) == if tier.High? then two else [];
    var three := [Verification, Repo, Scope];
    assert three[1..] == two;
    var four := [Acceptance, Verification, Repo, Scope];
    assert four[1..] == three;
    assert KeepLenses(three, armed) == if tier.Low? then [] else TierLenses(tier)[2..];
    assert KeepLenses(four, armed) == TierLenses(tier)[1..];
    assert LENSES[1..] == four;
  }

  predicate TierEnforcedAt(tier: Tier, stage: Stage) {
    match stage
    case Stage1 => false
    case Stage2 => tier == High
    case Stage3 => tier == High || tier == Medium
    case Auto => tier != Low
  }

  // ---- Findings bound to evidence -----------------------------------------------

  function TrimEnd(s: string): string {
    if |s| > 0 && IsSpace(s[|s| - 1]) then TrimEnd(s[..|s| - 1]) else s
  }

  function TrimStart(s: string): string {
    if |s| > 0 && IsSpace(s[0]) then TrimStart(s[1..]) else s
  }

  function Trim(s: string): string {
    TrimStart(TrimEnd(s))
  }

  predicate OccursAt(text: string, part: string, i: int) {
    0 <= i <= |text| - |part| && text[i..i + |part|] == part
  }

  predicate Includes(text: string, part: string) {
    exists i :: 0 <= i <= |text| && OccursAt(text, part, i)
  }

  function BlockingFindings(findings: seq<Finding>): nat {
    if |findings| == 0 then 0
    else BlockingFindings(findings[..|findings| - 1]) + (if findings[|findings| - 1].severity.Blocking? then 1 else 0)
  }

  predicate QuotesBriefing(finding: Finding, reviewed: string) {
    var evidence := TrimEnd(finding.evidence);
    EVIDENCE_MIN <= |evidence| <= EVIDENCE_MAX && Includes(Trim(reviewed), evidence)
  }

  // A result is accepted when every finding quotes the reviewed briefing and
  // the verdict agrees with the severities.
  predicate EvidenceHolds(findings: seq<Finding>, verdict: Verdict, reviewed: string) {
    (forall i :: 0 <= i < |findings| ==> QuotesBriefing(findings[i], reviewed))
    && (verdict.Ready? <==> BlockingFindings(findings) == 0)
  }

  lemma {:induction false} NothingBlocks(findings: seq<Finding>)
    ensures BlockingFindings(findings) == 0 <==> forall i :: 0 <= i < |findings| ==> !findings[i].severity.Blocking?
  {
    if |findings| > 0 {
      NothingBlocks(findings[..|findings| - 1]);
      assert forall i :: 0 <= i < |findings| - 1 ==> findings[..|findings| - 1][i] == findings[i];
    }
  }

  // Evidence is a span of 8 to 2000 characters of the trimmed briefing, and a
  // result is READY exactly when none of its findings blocks.
  lemma EvidenceIs(findings: seq<Finding>, verdict: Verdict, reviewed: string)
    ensures EvidenceHolds(findings, verdict, reviewed) <==>
            && (forall i :: 0 <= i < |findings| ==> IsSpan(TrimEnd(findings[i].evidence), Trim(reviewed)))
            && (verdict.Ready? <==> forall i :: 0 <= i < |findings| ==> !findings[i].severity.Blocking?)
  {
    NothingBlocks(findings);
    hide TrimEnd, TrimStart, BlockingFindings;
    forall i | 0 <= i < |findings|
      ensures QuotesBriefing(findings[i], reviewed) <==> IsSpan(TrimEnd(findings[i].evidence), Trim(reviewed))
    {
      SpansAreIncluded(TrimEnd(findings[i].evidence), Trim(reviewed));
    }
  }

  ghost predicate IsSpan(evidence: string, text: string) {
    8 <= |evidence| <= 2000 && exists before: string, after: string :: text == before + evidence + after
  }

  lemma SpansAreIncluded(evidence: string, text: string)
    ensures IsSpan(evidence, text) <==> 8 <= |evidence| <= 2000 && Includes(text, evidence)
  {
    if Includes(text, evidence) {
      var i :| 0 <= i <= |text| && OccursAt(text, evidence, i);
      assert text == text[..i] + evidence + text[i + |evidence|..];
    }
    if IsSpan(evidence, text) {
      var before: string, after: string :| text == before + evidence + after;
      assert OccursAt(text, evidence, |before|);
    }
  }

  ghost predicate Blank(s: string) {
    forall c :: c in s ==> IsSpace(c)
  }

  // Trimming drops exactly the white space at the end, or at both ends.
  lemma {:induction false} TrimEndIs(s: string) returns (after: string)
    ensures s == TrimEnd(s) + after && Blank(after)
    ensures TrimEnd(s) != "" ==> !IsSpace(TrimEnd(s)[|TrimEnd(s)| - 1])
  {
    after := "";
    if |s| > 0 && IsSpace(s[|s| - 1]) {
      after := TrimEndIs(s[..|s| - 1]);
      after := after + [s[|s| - 1]];
    }
  }

  lemma {:induction false} TrimStartIs(s: string) returns (before: string)
    ensures s == before + TrimStart(s) && Blank(before)
    ensures TrimStart(s) != "" ==> !IsSpace(TrimStart(s)[0])
  {
    before := "";
    if |s| > 0 && IsSpace(s[0]) {
      before := TrimStartIs(s[1..]);
      before := [s[0]] + before;
    }
  }

  lemma TrimIs(s: string) returns (before: string, after: string)
    ensures s == before + Trim(s) + after && Blank(before) && Blank(after)
    ensures Trim(s) != "" ==> !IsSpace(Trim(s)[0]) && !IsSpace(Trim(s)[|Trim(s)| - 1])
  {
    hide TrimEnd, TrimStart;
    after := TrimEndIs(s);
    before := TrimStartIs(TrimEnd(s));
  }

  method AssertFindingEvidence(findings: seq<Finding>, verdict: Verdict, reviewed: string) returns (ok: bool)
    ensures ok == EvidenceHolds(findings, verdict, reviewed)
  {
    var trimmed := Trim(reviewed);
    var blocking := 0;
    for i := 0 to |findings|
      invariant blocking == BlockingFindings(findings[..i])
      invariant forall j :: 0 <= j < i ==> QuotesBriefing(findings[j], reviewed)
    {
      var evidence := TrimEnd(findings[i].evidence);
      if |evidence| < EVIDENCE_MIN || |evidence| > EVIDENCE_MAX {
        return false;
      }
      if !Includes(trimmed, evidence) {
        return false;
      }
      assert findings[..i + 1][..i] == findings[..i];
      if findings[i].severity.Blocking? {
        blocking := blocking + 1;
      }
    }
    assert findings[..|findings|] == findings;
    if verdict.Ready? && blocking > 0 {
      return false;
    }
    if verdict.ChangesNeeded? && blocking == 0 {
      return false;
    }
    ok := true;
  }

  // ---- The briefing markers ------------------------------------------------------

  // The first and last place a marker occurs, or -1.
  function IndexOf(text: string, part: string): (i: int)
    ensures i >= 0 ==> OccursAt(text, part, i)
    ensures forall j :: 0 <= j <= |text| && OccursAt(text, part, j) ==> 0 <= i <= j
  {
    IndexFrom(text, part, 0)
  }

  function IndexFrom(text: string, part: string, from: nat): (i: int)
    requires from <= |text| + 1
    ensures i == -1 || (from <= i && OccursAt(text, part, i))
    ensures forall j :: from <= j <= |text| && OccursAt(text, part, j) ==> 0 <= i <= j
    decreases |text| + 1 - from
  {
    if from > |text| then -1
    else if OccursAt(text, part, from) then from
    else IndexFrom(text, part, from + 1)
  }

  function LastIndexOf(text: string, part: string): (i: int)
    ensures i >= 0 ==> OccursAt(text, part, i)
    ensures forall j :: 0 <= j <= |text| && OccursAt(text, part, j) ==> j <= i
  {
    LastIndexFrom(text, part, |text|)
  }

  function LastIndexFrom(text: string, part: string, from: int): (i: int)
    requires -1 <= from <= |text|
    ensures i == -1 || (0 <= i <= from && OccursAt(text, part, i))
    ensures forall j :: 0 <= j <= from && OccursAt(text, part, j) ==> j <= i
    decreases from + 1
  {
    if from < 0 then -1
    else if OccursAt(text, part, from) then from
    else LastIndexFrom(text, part, from - 1)
  }

  function MarkedBriefing(briefing: string, open: string, close: string): string {
    open + "\n" + briefing + "\n" + close
  }

  function StripEdgeNewlines(span: string): string {
    var tail := if |span| > 0 && span[0] == '\n' then span[1..] else span;
    if |tail| > 0 && tail[|tail| - 1] == '\n' then tail[..|tail| - 1] else tail
  }

  function ReviewedBriefing(text: string, open: string, close: string): Option<string> {
    var start, end := IndexOf(text, open), LastIndexOf(text, close);
    if start < 0 || end < 0 || end <= start then None
    else Some(StripEdgeNewlines(Slice(text, start + |open|, end)))
  }

  // JavaScript `slice` of two positions inside the text: empty when they cross.
  function Slice(text: string, from: int, to: int): string
    requires 0 <= from && 0 <= to <= |text|
  {
    if from < to then text[from..to] else ""
  }

  function LensBriefing(before: string, briefing: string, open: string, close: string, after: string): string {
    before + MarkedBriefing(briefing, open, close) + after
  }

  // Where the open marker first occurs and the close marker last occurs in a
  // lens briefing. Neither marker may straddle the edge of its own copy, which
  // is what "the text before has no open marker" and "the text after has no
  // close marker" come to for any marker text.
  ghost predicate MarkersFramed(before: string, open: string, close: string, after: string) {
    && (forall i :: 0 <= i < |before| ==> !OccursAt(before + open, open, i))
    && (forall i :: 0 < i <= |after| ==> !OccursAt(close + after, close, i))
  }

  // The reviewed span of a lens briefing is the briefing exactly, whatever the
  // briefing itself contains: marker text, or newlines at its edges.
  lemma MarkerRoundTrip(before: string, briefing: string, open: string, close: string, after: string)
    requires MarkersFramed(before, open, close, after)
    ensures ReviewedBriefing(LensBriefing(before, briefing, open, close, after), open, close) == Some(briefing)
  {
    hide IndexOf, LastIndexOf, StripEdgeNewlines;
    var text, span := LensBriefing(before, briefing, open, close, after), "\n" + briefing + "\n";
    assert text == (before + open) + span + (close + after);
    SpanIs(before + open, span, close + after);
    OpenComesFirst(text, before, open);
    CloseComesLast(text, |before + open| + |span|, close, after);
    StripsItsNewlines(briefing);
  }

  lemma SpanIs(a: string, span: string, c: string)
    ensures (a + span + c)[..|a|] == a
    ensures (a + span + c)[|a|..|a| + |span|] == span
    ensures (a + span + c)[|a| + |span|..] == c
  {
  }

  lemma StripsItsNewlines(briefing: string)
    ensures StripEdgeNewlines("\n" + briefing + "\n") == briefing
  {
    assert ("\n" + briefing + "\n")[1..] == briefing + "\n";
    assert (briefing + "\n")[..|briefing|] == briefing;
  }

  lemma OpenComesFirst(text: string, before: string, open: string)
    requires |before| + |open| <= |text| && text[..|before| + |open|] == before + open
    requires forall i :: 0 <= i < |before| ==> !OccursAt(before + open, open, i)
    ensures IndexOf(text, open) == |before|
  {
    assert text[|before|..|before| + |open|] == text[..|before| + |open|][|before|..];
    assert OccursAt(text, open, |before|);
    forall i | 0 <= i < |before| ensures !OccursAt(text, open, i) {
      assert (before + open)[i..i + |open|] == text[..|before| + |open|][i..i + |open|] == text[i..i + |open|];
      assert !OccursAt(before + open, open, i);
    }
  }

  lemma SliceOfRest(text: string, start: nat, i: nat, n: nat)
    requires start <= i && i + n <= |text|
    ensures text[start..][i - start..i - start + n] == text[i..i + n]
  {
  }

  lemma CloseComesLast(text: string, end: nat, close: string, after: string)
    requires end + |close| + |after| == |text| && text[end..] == close + after
    requires forall i :: 0 < i <= |after| ==> !OccursAt(close + after, close, i)
    ensures LastIndexOf(text, close) == end
  {
    assert text[end..][..|close|] == close;
    assert text[end..end + |close|] == text[end..][..|close|];
    assert OccursAt(text, close, end);
    forall i | end < i <= |text| ensures !OccursAt(text, close, i) {
      if i + |close| <= |text| {
        SliceOfRest(text, end, i, |close|);
        assert !OccursAt(text[end..], close, i - end);
      }
    }
  }

  // The markers of one review.
  function OpenMarker(id: string): string {
    "<<<NEFARIO-BRIEFING " + id + ">>>"
  }

  function CloseMarker(id: string): string {
    "<<<END NEFARIO-BRIEFING " + id + ">>>>"
  }

  // A text that cannot overlap a later copy of itself.
  ghost predicate Borderless(marker: string) {
    forall k :: 0 < k < |marker| ==> marker[k..] != marker[..|marker| - k]
  }

  lemma MarkerIsBorderless(marker: string, letter: char, rest: string)
    requires marker == "<<<" + [letter] + rest && letter != '<' && '<' !in rest
    ensures Borderless(marker)
  {
    forall k | 0 < k < |marker| ensures marker[k..] != marker[..|marker| - k] {
      if k >= 3 {
        assert marker[k..][0] != marker[..|marker| - k][0];
      } else {
        assert marker[k..][3 - k] == letter && marker[..|marker| - k][3 - k] == '<';
      }
    }
  }

  lemma NoOpenBefore(before: string, open: string, i: nat)
    requires Borderless(open) && !Includes(before, open) && i < |before|
    ensures !OccursAt(before + open, open, i)
  {
    var part := (before + open)[i..i + |open|];
    if i + |open| <= |before| {
      assert part == before[i..i + |open|];
      assert !OccursAt(before, open, i);
    } else {
      var k := |before| - i;
      assert part[k..] == open[..|open| - k];
      assert open[k..] != open[..|open| - k];
    }
  }

  lemma NoCloseAfter(after: string, close: string, i: nat)
    requires Borderless(close) && !Includes(after, close) && 0 < i <= |after|
    ensures !OccursAt(close + after, close, i)
  {
    var part := (close + after)[i..i + |close|];
    if i < |close| {
      assert part[..|close| - i] == close[i..];
      assert close[i..] != close[..|close| - i];
    } else {
      assert part == after[i - |close|..i];
      assert !OccursAt(after, close, i - |close|);
    }
  }

  lemma OpenMarkerIsBorderless(id: string)
    requires '<' !in id
    ensures Borderless(OpenMarker(id)) && |OpenMarker(id)| > 0
  {
    var rest := "EFARIO-BRIEFING " + id + ">>>";
    assert OpenMarker(id) == "<<<" + ['N'] + rest;
    MarkerIsBorderless(OpenMarker(id), 'N', rest);
  }

  lemma CloseMarkerIsBorderless(id: string)
    requires '<' !in id
    ensures Borderless(CloseMarker(id)) && |CloseMarker(id)| > 0
  {
    var rest := "ND NEFARIO-BRIEFING " + id + ">>>>";
    assert CloseMarker(id) == "<<<" + ['E'] + rest;
    MarkerIsBorderless(CloseMarker(id), 'E', rest);
  }

  lemma MarkersAreFramed(before: string, open: string, close: string, after: string)
    requires Borderless(open) && Borderless(close)
    requires !Includes(before, open) && !Includes(after, close)
    ensures MarkersFramed(before, open, close, after)
  {
    hide Borderless, Includes, OccursAt;
    forall i | 0 <= i < |before| ensures !OccursAt(before + open, open, i) {
      NoOpenBefore(before, open, i);
    }
    forall i | 0 < i <= |after| ensures !OccursAt(close + after, close, i) {
      NoCloseAfter(after, close, i);
    }
  }

  // Exactly when a lens job row gives back the reviewed briefing: no copy of
  // the open marker before it, and none of the close marker after it.
  lemma ReviewedBriefingIsExact(before: string, briefing: string, id: string, after: string)
    requires '<' !in id
    ensures var open, close := OpenMarker(id), CloseMarker(id);
            ReviewedBriefing(LensBriefing(before, briefing, open, close, after), open, close) == Some(briefing)
            <==> !Includes(before, open) && !Includes(after, close)
  {
    hide Borderless, Includes, ReviewedBriefing, LensBriefing;
    var open, close := OpenMarker(id), CloseMarker(id);
    OpenMarkerIsBorderless(id);
    CloseMarkerIsBorderless(id);
    if !Includes(before, open) && !Includes(after, close) {
      MarkersAreFramed(before, open, close, after);
      MarkerRoundTrip(before, briefing, open, close, after);
    } else {
      ExtraMarkerWidensSpan(before, briefing, open, close, after);
    }
  }

  lemma OwnMarkersOccur(before: string, briefing: string, open: string, close: string, after: string)
    ensures var text := LensBriefing(before, briefing, open, close, after);
            var end := |before| + |open| + 1 + |briefing| + 1;
            OccursAt(text, open, |before|) && OccursAt(text, close, end)
  {
    var text := LensBriefing(before, briefing, open, close, after);
    var end := |before| + |open| + 1 + |briefing| + 1;
    assert text == before + open + ("\n" + briefing + "\n" + close + after);
    assert text == (before + open + "\n" + briefing + "\n") + close + after;
  }

  lemma ExtraMarkerWidensSpan(before: string, briefing: string, open: string, close: string, after: string)
    requires 0 < |open| && 0 < |close|
    requires Includes(before, open) || Includes(after, close)
    ensures ReviewedBriefing(LensBriefing(before, briefing, open, close, after), open, close) != Some(briefing)
  {
    var text := LensBriefing(before, briefing, open, close, after);
    var end := |before| + |open| + 1 + |briefing| + 1;
    OwnMarkersOccur(before, briefing, open, close, after);
    if Includes(before, open) {
      var i :| 0 <= i <= |before| && OccursAt(before, open, i);
      assert text[i..i + |open|] == before[i..i + |open|];
      assert OccursAt(text, open, i);
    } else {
      var i :| 0 <= i <= |after| && OccursAt(after, close, i);
      assert text[end + |close|..] == after;
      assert text[end + |close| + i..end + |close| + i + |close|] == after[i..i + |close|];
      assert OccursAt(text, close, end + |close| + i);
    }
    assert |Slice(text, IndexOf(text, open) + |open|, LastIndexOf(text, close))| > |briefing| + 2;
  }
}
