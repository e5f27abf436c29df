// What retention makes of the chat frame log (src/chat/frame-log.ts): when a boot
// with another retention finds something open again in a settled log, and when a
// shard rotated out of an empty live file makes the directory unreadable.
module FrameRetention {
  import opened JavaScript
  import opened Outcomes
  import opened ChatFrames
  import opened FrameHistory
  import opened FrameReading
  import opened FrameAppending
  import opened FrameRuns
  import opened FrameTheorems
  import opened FrameTurns

  // ---- What older frames leave open -------------------------------------------------

  predicate HasTurn(frames: seq<Frame>) {
    exists i :: 0 <= i < |frames| && frames[i].Turn?
  }

  function OpenCount(frames: seq<Frame>, name: string): nat {
    multiset(TrackAll(frames).openTools)[name]
  }

  lemma TrackCounts(t: Tracked, f: Frame, name: string)
    ensures var before, after := multiset(t.openTools)[name], multiset(Track(t, f).openTools)[name];
            if !(f.Tool? && f.name == name) then after == before
            else if f.edge.Start? then after == before + 1
            else after == if before > 0 then before - 1 else 0
  {
    hide WithoutLast;
    if f.Tool? {
      WithoutLastCounts(t.openTools, f.name);
    }
  }

  // A tool is open once for every start the held frames do not end, or, where
  // that is more, once for every start of all the frames beyond the held ends.
  lemma {:induction false} OpenCountIs(older: seq<Frame>, held: seq<Frame>, name: string)
    ensures var net := OpenCount(older, name) + Edges(held, name, Start) - Edges(held, name, End);
            OpenCount(older + held, name) == if net > OpenCount(held, name) then net else OpenCount(held, name)
  {
    if |held| == 0 {
      assert older + held == older;
    } else {
      var init, last := held[..|held| - 1], held[|held| - 1];
      OpenCountIs(older, init, name);
      assert (older + held)[..|older + held| - 1] == older + init;
      hide Track;
      TrackCounts(TrackAll(init), last, name);
      TrackCounts(TrackAll(older + init), last, name);
    }
  }

  lemma {:induction false} TurnOpenIs(older: seq<Frame>, held: seq<Frame>)
    ensures TrackAll(older + held).turnOpen == if HasTurn(held) then TrackAll(held).turnOpen else TrackAll(older).turnOpen
  {
    if |held| == 0 {
      assert older + held == older;
    } else {
      var init, last := held[..|held| - 1], held[|held| - 1];
      TurnOpenIs(older, init);
      assert (older + held)[..|older + held| - 1] == older + init;
      assert HasTurn(held) <==> HasTurn(init) || last.Turn? by {
        if last.Turn? { assert held[|held| - 1].Turn?; }
        if HasTurn(init) {
          var i :| 0 <= i < |init| && init[i].Turn?;
          assert held[i].Turn?;
        }
      }
    }
  }

  // The held frames end every tool the older ones left open, beyond the starts
  // they end themselves, and say whether a turn the older ones left open goes on.
  ghost predicate EndsWhatIsOpen(older: seq<Frame>, held: seq<Frame>) {
    && (forall name :: name in TrackAll(older).openTools ==>
          OpenCount(older, name) + Edges(held, name, Start) <= Edges(held, name, End))
    && (TrackAll(older).turnOpen ==> HasTurn(held))
  }

  lemma OpenIsCounted(frames: seq<Frame>)
    ensures TrackAll(frames).openTools == [] <==> forall name :: OpenCount(frames, name) == 0
    ensures forall name :: name in TrackAll(frames).openTools <==> OpenCount(frames, name) > 0
  {
    var open := TrackAll(frames).openTools;
    if open != [] { assert OpenCount(frames, open[0]) > 0; }
  }

  lemma ReopensExactly(older: seq<Frame>, held: seq<Frame>)
    requires Settled(TrackAll(held))
    ensures Settled(TrackAll(older + held)) <==> EndsWhatIsOpen(older, held)
  {
    hide TrackAll, OpenCount, Edges, HasTurn;
    TurnOpenIs(older, held);
    OpenIsCounted(older);
    OpenIsCounted(held);
    OpenIsCounted(older + held);
    forall name
      ensures OpenCount(older + held, name) == 0
          <==> OpenCount(older, name) + Edges(held, name, Start) <= Edges(held, name, End)
    {
      OpenCountIs(older, held, name);
    }
    forall name | OpenCount(older, name) == 0 ensures Edges(held, name, Start) <= Edges(held, name, End) {
      NothingHeldOpens(held, name);
    }
  }

  lemma NothingHeldOpens(held: seq<Frame>, name: string)
    requires OpenCount(held, name) == 0
    ensures Edges(held, name, Start) <= Edges(held, name, End)
  {
    OpenCountIs([], held, name);
    assert [] + held == held;
  }

  // ---- Booting a settled log with any retention ---------------------------------------

  // Every retention reads an end of the same history; a larger one, more of it.
  lemma RetentionReads(json: JsonText, b: Bounds, w: World, keep: nat)
    requires Sound(json) && BoundsOk(b) && WorldOk(json, b, w) && w.log.Some? && keep > 0
    ensures var m, r := w.log.value.mem, Reading(json, keep, w.files).0;
            && m.tracked == TrackAll(m.frames) && IsSuffix(m.frames, w.history)
            && r.Ok? && r.value.tracked == TrackAll(r.value.frames) && IsSuffix(r.value.frames, w.history)
            && (keep <= w.log.value.policy.keep ==> |r.value.frames| <= |m.frames|)
  {
    hide DiskOk, TextOf, Unread, TrackAll, Reading, Mended, LiveFits;
    var l, shape, base :| Explains(json, b, w, l, shape, base);
    RestingMemory(json, b, w, l, shape, base);
    ReloadReads(json, b, w.files, w.history, l, shape, keep);
    if keep <= w.log.value.policy.keep {
      LargerReadsMore(l, keep, w.log.value.policy.keep);
    }
  }

  lemma LargerReadsMore(l: Layout, keep: nat, larger: nat)
    requires keep <= larger
    ensures Unread(l, larger) <= Unread(l, keep)
  {
    FlatPrefix(l.segs, |l.segs| - ReadSlots(l, larger), |l.segs| - ReadSlots(l, keep));
  }

  // Once settled, a log has nothing to close when it is booted again with the
  // retention it runs with or a smaller one. A larger one may read frames the log
  // does not hold; then nothing is open exactly when the held frames end what
  // those leave open.
  lemma SettledStaysSettled(json: JsonText, b: Bounds, steps: seq<Step>, keep: nat)
    requires Sound(json) && BoundsOk(b) && Legal(json, b, steps) && After(json, b, steps).log.Some? && keep > 0
    requires Settled(After(json, b, steps).log.value.mem.tracked)
    ensures var w := After(json, b, steps);
            var m, r := w.log.value.mem, Reading(json, keep, w.files).0;
            && r.Ok?
            && (Closing(r.value.tracked) == [] <==> Settled(r.value.tracked))
            && (keep <= w.log.value.policy.keep ==> |r.value.frames| <= |m.frames|)
            && (|r.value.frames| <= |m.frames| ==> Settled(r.value.tracked))
            && (|r.value.frames| > |m.frames| ==>
                  var older := r.value.frames[..|r.value.frames| - |m.frames|];
                  && r.value.frames == older + m.frames
                  && (Settled(r.value.tracked) <==> EndsWhatIsOpen(older, m.frames)))
  {
    hide Reading, Settled, Closing, WorldOk, TrackAll, OpensNoMore, EndsWhatIsOpen;
    EveryRunIsOk(json, b, steps);
    var w := After(json, b, steps);
    hide Legal, After;
    RetentionReads(json, b, w, keep);
    var held, read := w.log.value.mem.frames, Reading(json, keep, w.files).0.value.frames;
    NothingToClose(TrackAll(read));
    if |read| <= |held| {
      var before := held[..|held| - |read|];
      assert held == before + read;
      SuffixOpensNoMore(before, read);
      NothingOpen(TrackAll(read), TrackAll(held));
    } else {
      var older := read[..|read| - |held|];
      assert read == older + held;
      ReopensExactly(older, held);
    }
  }

  // A directory whose older shard starts a tool that nothing ends.
  const STARTED: Frame := Tool("t", Start, 1)
  const SPOKEN: Frame := Delta("x", 2)

  lemma TwoFrames()
    ensures Consecutive([STARTED] + [SPOKEN], 1) && Consecutive([SPOKEN], 2)
    ensures TrackAll([SPOKEN]) == NOTHING && TrackAll([STARTED] + [SPOKEN]) == NOTHING.(openTools := ["t"])
  {
    hide TrackAll, Loggable;
    StartedIsLoggable();
    SpokenIsLoggable();
    NothingTracked();
    assert [] + [SPOKEN] == [SPOKEN] && [] + [STARTED] == [STARTED];
    TracksOne([], SPOKEN);
    TracksOne([], STARTED);
    TracksOne([STARTED], SPOKEN);
  }

  lemma StartedIsLoggable()
    ensures Loggable(STARTED)
  {
    hide Loggable;
    AcceptedFramesReadBack(UTool("t", Start), 1);
    AcceptedIsLoggable(UTool("t", Start), 1);
  }

  lemma SpokenIsLoggable()
    ensures Loggable(SPOKEN)
  {
    hide Loggable;
    AcceptedFramesReadBack(UDelta("x"), 2);
    AcceptedIsLoggable(UDelta("x"), 2);
  }

  lemma NothingTracked()
    ensures TrackAll([]) == NOTHING
  {
  }

  lemma TracksOne(frames: seq<Frame>, f: Frame)
    ensures TrackAll(frames + [f]) == Track(TrackAll(frames), f)
  {
    assert (frames + [f])[..|frames|] == frames;
  }

  function TwoShards(json: JsonText): Files {
    Files(None, map[1 := TextOf(json, [SPOKEN]), 2 := TextOf(json, [STARTED])])
  }

  // Retention 1 reads a settled log there, retention 2 an open tool.
  lemma LargerRetentionReopens(json: JsonText)
    requires Sound(json)
    ensures var one, two := Reading(json, 1, TwoShards(json)).0, Reading(json, 2, TwoShards(json)).0;
            && one.Ok? && Settled(one.value.tracked)
            && two.Ok? && Closing(two.value.tracked) == [UTool("t", End)]
  {
    hide Sound, Reading, TextOf, Consecutive, TrackAll, Loggable;
    TwoFrames();
    var files := TwoShards(json);
    SlotsFromUnique(files.shards, 1, 1, 1);
    SlotsFromUnique(files.shards, 1, 2, 2);
    var newest, both := [[SPOKEN]], [[STARTED], [SPOKEN]];
    assert both[1..] == newest && newest[1..] == [] && both[|both| - 1] == [SPOKEN] && both[|both| - 2] == [STARTED];
    assert newest[|newest| - 1] == [SPOKEN];
    assert Flat(newest) + [] == [SPOKEN] && Flat(both) + [] == [STARTED] + [SPOKEN];
    ReadsDirectory(json, 1, files, newest, [], 2, Absent);
    ReadsDirectory(json, 2, files, both, [], 1, Absent);
    ClosesOne(TrackAll([STARTED] + [SPOKEN]), "t");
  }

  lemma ClosesOne(t: Tracked, name: string)
    requires t.openTools == [name] && !t.turnOpen
    ensures Closing(t) == [UTool(name, End)]
  {
    assert Closing(t.(openTools := t.openTools[..0])) == [];
  }

  // ---- Rotating an empty live file ---------------------------------------------------

  // The frames a directory holds in slots and live file, and the seq of the first.
  datatype Held = Held(segs: seq<seq<Frame>>, tail: seq<Frame>, first: nat)

  ghost predicate HeldFits(json: JsonText, keep: nat, files: Files, h: Held, shape: Shape) {
    DirectoryFits(json, keep, files, h.segs, h.tail, h.first, shape)
  }

  function RotatedHeld(h: Held, keep: nat): Held {
    Held(Kept(h.segs, h.tail, keep), [], h.first + |Flat(Pruned(h.segs, h.tail, keep))|)
  }

  lemma RotationFits(json: JsonText, keep: nat, files: Files, h: Held)
    requires keep > 0 && HeldFits(json, keep, files, h, Whole)
    ensures HeldFits(json, keep, Rotated(files, keep), RotatedHeld(h, keep), Absent)
    ensures |RotatedHeld(h, keep).segs| <= keep
    ensures var r := RotatedHeld(h, keep); r.first + |Flat(r.segs)| == h.first + |Flat(h.segs)| + |h.tail|
  {
    hide TextOf, Rotated, Flat, Kept, Pruned, Consecutive;
    SlotsFromIs(files.shards, 1, keep);
    RotatedShards(json, files, h.segs, h.tail, keep);
    RotatedHasNoLive(files, keep);
    RotatedInOrder(h, keep);
    SlotsOfRotated(files, keep, |h.segs|, |Kept(h.segs, h.tail, keep)|);
  }

  lemma RotatedInOrder(h: Held, keep: nat)
    requires Consecutive(Flat(h.segs) + h.tail, h.first)
    ensures var r := RotatedHeld(h, keep);
            && Consecutive(Flat(r.segs) + r.tail, r.first)
            && r.first + |Flat(r.segs)| == h.first + |Flat(h.segs)| + |h.tail|
            && |r.segs| == if |h.segs| + 1 <= keep then |h.segs| + 1 else keep
  {
    var kept, pruned := Kept(h.segs, h.tail, keep), Pruned(h.segs, h.tail, keep);
    assert pruned + kept == h.segs + [h.tail];
    hide Flat, Consecutive, Kept, Pruned;
    FlatAppend(pruned, kept);
    FlatWithTail(h.segs, h.tail);
    ConsecutiveParts(Flat(pruned), Flat(kept), h.first);
    assert Flat(kept) + [] == Flat(kept);
  }

  lemma SlotsOfRotated(files: Files, keep: nat, held: nat, kept: nat)
    requires keep > 0 && files.live.Some? && HasSlots(files.shards, held) && held <= keep && (held < keep ==> held + 1 !in files.shards)
    requires kept == if held + 1 <= keep then held + 1 else keep
    ensures SlotsHeld(Rotated(files, keep).shards, keep) == kept
  {
    hide Rotated;
    var after := Rotated(files, keep).shards;
    forall s: nat | 1 <= s <= kept ensures s in after {
      RotatedSlots(files, keep, s);
    }
    RotatedSlots(files, keep, kept + 1);
    SlotsFromUnique(after, 1, keep, kept);
  }

  lemma LineFits(json: JsonText, keep: nat, files: Files, h: Held, shape: Shape, f: Frame)
    requires HeldFits(json, keep, files, h, shape) && AtRest(shape)
    requires Loggable(f) && LoggedFrameSeq(f) == h.first + |Flat(h.segs)| + |h.tail|
    ensures HeldFits(json, keep, Written(files, LineText(json, f)), h.(tail := h.tail + [f]), Whole)
  {
    hide Loggable, TextOf, LineText, ShardsFit, Flat;
    LoggableIsLogged(f);
    TailGrows(json, files, h.tail, shape, f);
    assert Flat(h.segs) + (h.tail + [f]) == Flat(h.segs) + h.tail + [f];
  }

  // How often these appends rotate, from the believed size and the next seq.
  function Rotations(json: JsonText, policy: Policy, size: nat, n: nat, us: seq<Unsequenced>): nat
    decreases |us|
  {
    if |us| == 0 then 0
    else
      var line := |LineText(json, WithSeq(us[0], n))|;
      if MustRotate(policy, size, line) then 1 + Rotations(json, policy, line, n + 1, us[1..])
      else Rotations(json, policy, size + line, n + 1, us[1..])
  }

  // What the directory holds after one append.
  function HeldAfter(json: JsonText, policy: Policy, size: nat, h: Held, f: Frame): Held
    requires LoggedKind(f)
  {
    var placed := if MustRotate(policy, size, |LineText(json, f)|) then RotatedHeld(h, policy.keep) else h;
    placed.(tail := placed.tail + [f])
  }

  lemma AppendFits(json: JsonText, policy: Policy, m: Mem, files: Files, h: Held, u: Unsequenced)
    requires policy.keep > 0 && HeldFits(json, policy.keep, files, h, Whole)
    requires m.high + 1 == h.first + |Flat(h.segs)| + |h.tail|
    requires Accepted(u, m.high + 1) && m.high < MAX_SAFE_INTEGER
    ensures var after := HeldAfter(json, policy, m.liveBytes, h, WithSeq(u, m.high + 1));
            && HeldFits(json, policy.keep, Appending(json, policy, m, files, u).files, after, Whole)
            && m.high + 2 == after.first + |Flat(after.segs)| + |after.tail|
  {
    hide HeldFits, Accepted, LineText, RotatedHeld, Rotated, WithSeq, Flat;
    var f := WithSeq(u, m.high + 1);
    AcceptedIsLoggable(u, m.high + 1);
    SeqAssigned(u, m.high + 1);
    if MustRotate(policy, m.liveBytes, |LineText(json, f)|) {
      RotationFits(json, policy.keep, files, h);
      NothingInTail(h, policy.keep);
      LineFits(json, policy.keep, Rotated(files, policy.keep), RotatedHeld(h, policy.keep), Absent, f);
    } else {
      LineFits(json, policy.keep, files, h, Whole, f);
    }
  }

  lemma SeqAssigned(u: Unsequenced, n: nat)
    ensures LoggedFrameSeq(WithSeq(u, n)) == n
  {
  }

  lemma NothingInTail(h: Held, keep: nat)
    ensures RotatedHeld(h, keep).tail == []
  {
  }

  // The frames of slot `i`: slot 1 holds the newest segment.
  function InSlot(segs: seq<seq<Frame>>, i: nat): seq<Frame>
    requires 1 <= i <= |segs|
  {
    segs[|segs| - i]
  }

  // Exactly slot `e` holds no frame; 0 is none. The oldest slot is empty only
  // once it is slot `keep` and frames before it were dropped.
  ghost predicate EmptyAt(keep: nat, h: Held, e: nat) {
    && 1 <= |h.segs| <= keep && e <= |h.segs| && h.first >= 1
    && (forall i: nat :: 1 <= i <= |h.segs| ==> (InSlot(h.segs, i) == [] <==> i == e))
    && (e == |h.segs| ==> e == keep && h.first > 1)
  }

  lemma RotatedInSlot(h: Held, keep: nat, i: nat)
    requires 1 <= i <= |Kept(h.segs, h.tail, keep)|
    ensures i == 1 || i - 1 <= |h.segs|
    ensures InSlot(Kept(h.segs, h.tail, keep), i) == if i == 1 then h.tail else InSlot(h.segs, i - 1)
  {
    var all := h.segs + [h.tail];
    assert Kept(h.segs, h.tail, keep)[|Kept(h.segs, h.tail, keep)| - i] == all[|all| - i];
  }

  lemma RotatedAway(h: Held, keep: nat)
    requires 1 <= |h.segs| <= keep
    ensures |Kept(h.segs, h.tail, keep)| == if |h.segs| < keep then |h.segs| + 1 else keep
    ensures |Flat(Pruned(h.segs, h.tail, keep))| == if |h.segs| < keep then 0 else |InSlot(h.segs, keep)|
  {
    var pruned := Pruned(h.segs, h.tail, keep);
    if |h.segs| == keep {
      assert pruned == [h.segs[0]] && pruned[1..] == [];
    }
  }

  // Where the empty slot is after an append: a rotation moves it one up, out past
  // `keep`, and makes an empty live file the empty slot 1.
  function Sunk(keep: nat, h: Held, e: nat, rotates: bool): nat {
    if !rotates then e else if h.tail == [] then 1 else if e == 0 || e == keep then 0 else e + 1
  }

  lemma RotationSinks(keep: nat, h: Held, e: nat)
    requires EmptyAt(keep, h, e) && (e == 0 || h.tail != [])
    ensures EmptyAt(keep, RotatedHeld(h, keep), Sunk(keep, h, e, true))
  {
    hide Flat, Kept, Pruned, InSlot;
    RotatedAway(h, keep);
    var r := RotatedHeld(h, keep);
    forall i: nat | 1 <= i <= |r.segs| ensures InSlot(r.segs, i) == [] <==> i == Sunk(keep, h, e, true) {
      RotatedInSlot(h, keep, i);
      if i > 1 { assert InSlot(h.segs, i - 1) == [] <==> i - 1 == e; }
    }
    if |h.segs| == keep { assert InSlot(h.segs, keep) == [] <==> keep == e; }
  }

  lemma AppendSinks(json: JsonText, policy: Policy, size: nat, h: Held, e: nat, f: Frame)
    requires EmptyAt(policy.keep, h, e) && (e == 0 || h.tail != []) && LoggedKind(f)
    ensures var after := HeldAfter(json, policy, size, h, f);
            && EmptyAt(policy.keep, after, Sunk(policy.keep, h, e, MustRotate(policy, size, |LineText(json, f)|)))
            && after.tail != []
  {
    hide LineText, EmptyAt, RotatedHeld;
    if MustRotate(policy, size, |LineText(json, f)|) {
      RotationSinks(policy.keep, h, e);
      EmptyIgnoresTail(policy.keep, RotatedHeld(h, policy.keep), RotatedHeld(h, policy.keep).tail + [f], Sunk(policy.keep, h, e, true));
    } else {
      EmptyIgnoresTail(policy.keep, h, h.tail + [f], e);
    }
  }

  lemma EmptyIgnoresTail(keep: nat, h: Held, tail: seq<Frame>, e: nat)
    requires EmptyAt(keep, h, e)
    ensures EmptyAt(keep, h.(tail := tail), e)
  {
  }

  // The directory is refused exactly while its oldest slot is the empty one.
  lemma EmptyOldestIsRefused(json: JsonText, keep: nat, files: Files, h: Held, e: nat)
    requires Sound(json) && HeldFits(json, keep, files, h, Whole) && EmptyAt(keep, h, e) && h.tail != []
    ensures Reading(json, keep, files).0.Ok? <==> e != keep
  {
    hide Sound, Reading, ShardsFit, Consecutive, Flat, TextOf;
    assert InSlot(h.segs, |h.segs|) == h.segs[0];
    assert |Flat(h.segs) + h.tail| >= |h.tail|;
    LoadAcceptsExactly(json, keep, files, h.segs, h.tail, h.first);
  }

  lemma {:induction false} EmptyShardSinks(
      json: JsonText, policy: Policy, m: Mem, files: Files, h: Held, e: nat, us: seq<Unsequenced>)
    requires Sound(json) && HeldFits(json, policy.keep, files, h, Whole) && EmptyAt(policy.keep, h, e) && h.tail != []
    requires m.high + 1 == h.first + |Flat(h.segs)| + |h.tail| && m.high + |us| <= MAX_SAFE_INTEGER
    requires AppendingAll(json, policy, m, files, us).0.Ok?
    ensures Reading(json, policy.keep, AppendingAll(json, policy, m, files, us).2).0.Ok?
       <==> !(e > 0 && e + Rotations(json, policy, m.liveBytes, m.high + 1, us) == policy.keep)
    decreases |us|
  {
    hide Sound, HeldFits, EmptyAt, Reading, Accepted, LineText, HeldAfter, Flat, Appending, WithSeq;
    EmptyIsHeld(policy.keep, h, e);
    if |us| == 0 {
      EmptyOldestIsRefused(json, policy.keep, files, h, e);
    } else {
      var first := Appending(json, policy, m, files, us[0]);
      var f := WithSeq(us[0], m.high + 1);
      AppendSizes(json, policy, m, files, us[0]);
      AppendFits(json, policy, m, files, h, us[0]);
      AppendSinks(json, policy, m.liveBytes, h, e, f);
      EmptyShardSinks(json, policy, first.mem, first.files, HeldAfter(json, policy, m.liveBytes, h, f),
                      Sunk(policy.keep, h, e, MustRotate(policy, m.liveBytes, |LineText(json, f)|)), us[1..]);
    }
  }

  lemma EmptyIsHeld(keep: nat, h: Held, e: nat)
    requires EmptyAt(keep, h, e)
    ensures 1 <= |h.segs| <= keep && e <= keep
  {
  }

  lemma AppendSizes(json: JsonText, policy: Policy, m: Mem, files: Files, u: Unsequenced)
    requires Appending(json, policy, m, files, u).outcome.Ok?
    ensures var line := |LineText(json, WithSeq(u, m.high + 1))|;
            var after := Appending(json, policy, m, files, u).mem;
            && Accepted(u, m.high + 1) && after.high == m.high + 1
            && after.liveBytes == if MustRotate(policy, m.liveBytes, line) then line else m.liveBytes + line
  {
    hide Accepted, LineText, Rotated;
  }

  // A live file that holds no frame, as a torn line dropped at boot leaves it,
  // over shards that hold some. However many appends follow, the directory they
  // leave is unreadable exactly when the first of them rotates the empty file and
  // they rotate `keep` times in all: the empty shard is then the oldest one read.
  lemma EmptyLiveFileMustNotRotate(
      json: JsonText, policy: Policy, m: Mem, files: Files, segs: seq<seq<Frame>>, first: nat, us: seq<Unsequenced>)
    requires Sound(json) && first >= 1 && |segs| > 0 && forall i :: 0 <= i < |segs| ==> segs[i] != []
    requires DirectoryFits(json, policy.keep, files, segs, [], first, Whole) && m.high + 1 == first + |Flat(segs)|
    requires |us| > 0 && m.high + |us| <= MAX_SAFE_INTEGER && AppendingAll(json, policy, m, files, us).0.Ok?
    ensures files.live == Some("")
    ensures Reading(json, policy.keep, AppendingAll(json, policy, m, files, us).2).0.Ok?
       <==> !(&& MustRotate(policy, m.liveBytes, |LineText(json, WithSeq(us[0], m.high + 1))|)
              && Rotations(json, policy, m.liveBytes, m.high + 1, us) == policy.keep)
  {
    hide Sound, Reading, Accepted, LineText, HeldAfter, Flat, Appending, ShardsFit, Consecutive, WithSeq;
    var h := Held(segs, [], first);
    NoText(json);
    NothingEmpty(json, policy.keep, files, h);
    var head := Appending(json, policy, m, files, us[0]);
    var f := WithSeq(us[0], m.high + 1);
    AppendSizes(json, policy, m, files, us[0]);
    AppendFits(json, policy, m, files, h, us[0]);
    AppendSinks(json, policy, m.liveBytes, h, 0, f);
    hide EmptyAt, HeldFits, TextOf;
    EmptyShardSinks(json, policy, head.mem, head.files, HeldAfter(json, policy, m.liveBytes, h, f),
                    Sunk(policy.keep, h, 0, MustRotate(policy, m.liveBytes, |LineText(json, f)|)), us[1..]);
  }

  lemma NothingEmpty(json: JsonText, keep: nat, files: Files, h: Held)
    requires DirectoryFits(json, keep, files, h.segs, h.tail, h.first, Whole) && h.first >= 1
    requires |h.segs| > 0 && forall i :: 0 <= i < |h.segs| ==> h.segs[i] != []
    ensures EmptyAt(keep, h, 0) && keep > 0
  {
    hide ShardsFit, Consecutive, TextOf, Flat;
    SlotsFromIs(files.shards, 1, keep);
  }
}
