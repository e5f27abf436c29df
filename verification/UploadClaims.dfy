// The names in the uploads directory, the FIFO rank of upload claims and the
// rule that decides which claims are abandoned (src/attachments/resolver.ts).
module UploadClaims {
  import opened JavaScript
  import opened Outcomes

  const STALE_MS: nat := 30_000

  // What a claim's file name records. A malformed name has no owner.
  datatype Owner = Owner(ts: nat, pid: nat)

  // One directory entry. A legacy reservation marker carries its modification
  // time and the live-checkable pid its body names, if it names one.
  datatype Entry =
    | Payload(name: string)
    | Claim(name: string, owner: Option<Owner>)
    | Legacy(name: string, mtime: nat, pid: Option<nat>)

  predicate IsClaim(e: Entry) {
    !e.Payload?
  }

  // ---- Rank --------------------------------------------------------------

  function StampOf(e: Entry): nat {
    if e.Claim? && e.owner.Some? then e.owner.value.ts else MAX_SAFE_INTEGER
  }

  // Code-unit order of two strings, as `<` compares them.
  predicate NameLess(a: string, b: string) {
    if |b| == 0 then false
    else if |a| == 0 then true
    else if a[0] != b[0] then a[0] < b[0]
    else NameLess(a[1..], b[1..])
  }

  lemma {:induction false} NameLessTotal(a: string, b: string)
    ensures a != b ==> NameLess(a, b) != NameLess(b, a)
    ensures !(NameLess(a, b) && NameLess(b, a))
    ensures !NameLess(a, a)
  {
    if |a| > 0 && |b| > 0 && a[0] == b[0] {
      NameLessTotal(a[1..], b[1..]);
      assert a == [a[0]] + a[1..] && b == [b[0]] + b[1..];
    } else if |a| > 0 {
      NameLessIrreflexive(a);
    }
  }

  lemma {:induction false} NameLessIrreflexive(a: string)
    ensures !NameLess(a, a)
  {
    if |a| > 0 { NameLessIrreflexive(a[1..]); }
  }

  lemma {:induction false} NameLessTransitive(a: string, b: string, c: string)
    requires NameLess(a, b) && NameLess(b, c)
    ensures NameLess(a, c)
  {
    if |a| > 0 && a[0] == b[0] && b[0] == c[0] {
      NameLessTransitive(a[1..], b[1..], c[1..]);
    }
  }

  // The comparator: creation stamp first, then name.
  predicate Before(a: Entry, b: Entry) {
    StampOf(a) < StampOf(b) || (StampOf(a) == StampOf(b) && NameLess(a.name, b.name))
  }

  lemma BeforeIsStrictOrder(a: Entry, b: Entry, c: Entry)
    ensures !Before(a, a)
    ensures Before(a, b) ==> !Before(b, a)
    ensures a.name != b.name ==> Before(a, b) || Before(b, a)
    ensures Before(a, b) && Before(b, c) ==> Before(a, c)
  {
    NameLessTotal(a.name, b.name);
    if StampOf(a) == StampOf(b) == StampOf(c) && NameLess(a.name, b.name) && NameLess(b.name, c.name) {
      NameLessTransitive(a.name, b.name, c.name);
    }
  }

  // Two entries never share a name.
  ghost predicate DistinctNames(entries: seq<Entry>) {
    forall i, j :: 0 <= i < j < |entries| ==> entries[i].name != entries[j].name
  }

  ghost predicate UniqueNames(entries: set<Entry>) {
    forall a, b :: a in entries && b in entries && a.name == b.name ==> a == b
  }

  function ToSet(entries: seq<Entry>): set<Entry> {
    set e | e in entries
  }

  // ---- The sorted ranking and what an index in it means -------------------

  function InsertByRank(e: Entry, ranked: seq<Entry>): seq<Entry> {
    if |ranked| == 0 || Before(e, ranked[0]) then [e] + ranked
    else [ranked[0]] + InsertByRank(e, ranked[1..])
  }

  function RankUploadClaims(claims: seq<Entry>): seq<Entry> {
    if |claims| == 0 then [] else InsertByRank(claims[0], RankUploadClaims(claims[1..]))
  }

  // JavaScript `findIndex` by name: -1 when nothing matches.
  function IndexOfName(ranked: seq<Entry>, name: string): int {
    if |ranked| == 0 then -1
    else if ranked[0].name == name then 0
    else var rest := IndexOfName(ranked[1..], name);
         if rest < 0 then -1 else rest + 1
  }

  // The claims that come before `e`: its FIFO rank is how many there are.
  function Ahead(claims: set<Entry>, e: Entry): set<Entry> {
    set c | c in claims && Before(c, e)
  }

  ghost predicate Ranked(ranked: seq<Entry>) {
    forall i, j :: 0 <= i < j < |ranked| ==> Before(ranked[i], ranked[j])
  }

  lemma {:induction false} InsertKeepsRank(e: Entry, ranked: seq<Entry>)
    requires Ranked(ranked)
    requires forall r :: r in ranked ==> r.name != e.name
    ensures Ranked(InsertByRank(e, ranked))
    ensures ToSet(InsertByRank(e, ranked)) == ToSet(ranked) + {e}
  {
    if |ranked| == 0 {
    } else if Before(e, ranked[0]) {
      forall i | 0 <= i < |ranked| ensures Before(e, ranked[i]) {
        BeforeIsStrictOrder(e, ranked[0], ranked[i]);
      }
    } else {
      InsertKeepsRank(e, ranked[1..]);
      BeforeIsStrictOrder(e, ranked[0], e);
      var rest := InsertByRank(e, ranked[1..]);
      forall r | r in rest ensures Before(ranked[0], r) {
        assert r in ToSet(rest);
      }
      assert ranked == [ranked[0]] + ranked[1..];
      assert ToSet(ranked) == {ranked[0]} + ToSet(ranked[1..]);
    }
  }

  lemma {:induction false} RankSorts(claims: seq<Entry>)
    requires DistinctNames(claims)
    ensures Ranked(RankUploadClaims(claims))
    ensures ToSet(RankUploadClaims(claims)) == ToSet(claims)
  {
    if |claims| > 0 {
      RankSorts(claims[1..]);
      var rest := RankUploadClaims(claims[1..]);
      forall r | r in rest ensures r.name != claims[0].name {
        assert r in ToSet(rest);
      }
      InsertKeepsRank(claims[0], rest);
      assert claims == [claims[0]] + claims[1..];
    }
  }

  // In a ranked listing the first entry is ahead of all the others.
  lemma AheadSplits(ranked: seq<Entry>, e: Entry)
    requires |ranked| > 0 && Ranked(ranked) && e in ranked[1..]
    ensures Ahead(ToSet(ranked), e) == {ranked[0]} + Ahead(ToSet(ranked[1..]), e)
    ensures ranked[0] !in Ahead(ToSet(ranked[1..]), e)
  {
    var first, rest := ranked[0], ranked[1..];
    assert ranked == [first] + rest;
    assert ToSet(ranked) == {first} + ToSet(rest);
    assert Before(first, e);
    BeforeIsStrictOrder(first, first, first);
    assert first !in rest;
  }

  lemma NothingAheadOfFirst(ranked: seq<Entry>)
    requires |ranked| > 0 && Ranked(ranked)
    ensures Ahead(ToSet(ranked), ranked[0]) == {}
  {
    forall c | c in ranked ensures !Before(c, ranked[0]) {
      BeforeIsStrictOrder(c, ranked[0], c);
      BeforeIsStrictOrder(ranked[0], c, ranked[0]);
    }
  }

  lemma {:induction false} IndexCountsAhead(ranked: seq<Entry>, e: Entry)
    requires Ranked(ranked)
    requires forall r :: r in ranked && r.name == e.name ==> r == e
    ensures e in ranked ==> IndexOfName(ranked, e.name) == |Ahead(ToSet(ranked), e)|
    ensures e !in ranked ==> IndexOfName(ranked, e.name) == -1
  {
    if |ranked| > 0 {
      if ranked[0].name == e.name {
        NothingAheadOfFirst(ranked);
      } else {
        IndexCountsAhead(ranked[1..], e);
        if e in ranked[1..] {
          AheadSplits(ranked, e);
        }
      }
    }
  }

  // Every racer computes the same position from the same snapshot, whatever
  // order the directory listed it in: the position counts the claims ahead.
  lemma RankIsOrderIndependent(listing: seq<Entry>, e: Entry)
    requires DistinctNames(listing)
    requires forall r :: r in listing && r.name == e.name ==> r == e
    ensures IndexOfName(RankUploadClaims(listing), e.name)
            == if e in listing then |Ahead(ToSet(listing), e)| else -1
  {
    RankSorts(listing);
    var ranked := RankUploadClaims(listing);
    forall r ensures r in ranked <==> r in listing {
      assert r in ToSet(ranked) <==> r in ToSet(listing);
    }
    IndexCountsAhead(ranked, e);
  }

  // ---- Abandoned claims ----------------------------------------------------

  // `pid` is the process cleaning up, `alive` the pids a signal-0 probe finds.
  predicate Abandoned(e: Entry, pid: nat, now: nat, alive: set<nat>) {
    match e
    case Payload(_) => false
    case Claim(_, None) => false
    case Claim(_, Some(owner)) =>
      owner.pid == pid || (now as int - owner.ts > STALE_MS && owner.pid !in alive)
    case Legacy(_, mtime, owner) =>
      now as int - mtime > STALE_MS && !(owner.Some? && owner.value in alive)
  }
}
