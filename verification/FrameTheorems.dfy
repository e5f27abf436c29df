// What a reader of the chat frame log may rely on: a crash loses at most the
// frame being written, the disk always reads back as the end of the memory, a
// settled log stays settled, and the dedup and replay views mean what they say.
module FrameTheorems {
  import opened JavaScript
  import opened Outcomes
  import opened ChatFrames
  import opened FrameHistory
  import opened FrameReading
  import opened FrameAppending
  import opened FrameRuns

  // The last `count` frames.
  ghost predicate IsSuffix(part: seq<Frame>, whole: seq<Frame>) {
    |part| <= |whole| && part == whole[|whole| - |part|..]
  }

  // ---- Crash and reload ------------------------------------------------------------

  // Every shard a reload reads is a whole shard: it was rotated out only because
  // the live file was about to outgrow the limit.
  ghost predicate ReadShardsAreFull(b: Bounds, shards: map<nat, string>, keep: nat) {
    && SlotsHeld(shards, keep) >= b.leastKeep
    && forall s: nat :: 1 <= s <= SlotsHeld(shards, keep) ==> s in shards && |shards[s]| + 2 * b.longest > b.leastMax
  }

  // However a run stopped, the next load succeeds; it finds exactly the end of
  // everything appended, up to the last frame that was fully written; it leaves
  // the directory readable as it is; and frames are missing from the front only
  // when every retained shard is full.
  lemma CrashAndReload(json: JsonText, b: Bounds, steps: seq<Step>, policy: Policy)
    requires Sound(json) && BoundsOk(b) && Legal(json, b, steps) && After(json, b, steps).log.None?
    requires PolicyOk(b, policy)
    ensures var w := After(json, b, steps);
            var (r, files) := Reading(json, policy.keep, w.files);
            && Consecutive(w.history, 1)
            && r.Ok? && IsSuffix(r.value.frames, w.history)
            && r.value.high == |w.history| && (w.history != [] ==> r.value.frames != [])
            && r.value.tracked == TrackAll(r.value.frames)
            && (|r.value.frames| < |w.history| ==> ReadShardsAreFull(b, w.files.shards, policy.keep))
            && Reading(json, policy.keep, files).1 == files
            && Reading(json, policy.keep, files).0.Ok?
            && Reading(json, policy.keep, files).0.value.frames == r.value.frames
  {
    EveryRunIsOk(json, b, steps);
    var w := After(json, b, steps);
    hide DiskOk, MemoryOk, Consecutive, Reading, Mended, ReadShardsAreFull, Legal, After;
    var l, shape, base :| Explains(json, b, w, l, shape, base);
    HistoryCounts(json, b, w.files, w.history, l, shape);
    ReloadReads(json, b, w.files, w.history, l, shape, policy.keep);
    MendingKeepsDisk(json, b, w.files, w.history, l, shape);
    var mended := Files(Mended(json, w.files.live, l.tail), w.files.shards);
    var rest := if w.files.live.None? then Absent else Whole;
    ReloadReads(json, b, mended, w.history, l, rest, policy.keep);
    MendedStays(json, w.files.live, l.tail);
    if Unread(l, policy.keep) > 0 {
      RetainedIsFull(json, b, w.files, w.history, l, shape, policy.keep);
    }
  }

  lemma HistoryCounts(json: JsonText, b: Bounds, files: Files, history: seq<Frame>, l: Layout, shape: Shape)
    requires DiskOk(json, b, files, history, l, shape)
    ensures Consecutive(history, 1) && AllLogged(l.tail)
  {
  }

  lemma MendedStays(json: JsonText, live: Option<string>, tail: seq<Frame>)
    requires AllLogged(tail)
    ensures Mended(json, Mended(json, live, tail), tail) == Mended(json, live, tail)
  {
  }

  lemma RetainedIsFull(json: JsonText, b: Bounds, files: Files, history: seq<Frame>, l: Layout, shape: Shape, keep: nat)
    requires DiskOk(json, b, files, history, l, shape) && BoundsOk(b) && keep >= b.leastKeep && Unread(l, keep) > 0
    ensures ReadShardsAreFull(b, files.shards, keep)
  {
    hide Consecutive, LiveFits, TextOf;
    SlotsAreReadSlots(json, b, files.shards, l, keep);
    if |l.segs| <= keep {
      assert l.segs[..0] == [];
    }
  }

  // ---- Why the slots must be contiguous ----------------------------------------------------

  // A crash inside a rotation that leaves slot 1 empty: the live file alone is
  // then refused unless it starts the count.
  lemma MissingSlotOneIsRefused(json: JsonText, keep: nat, files: Files, tail: seq<Frame>, first: nat)
    requires Sound(json) && keep > 0 && 1 !in files.shards && tail != [] && Consecutive(tail, first) && AllLogged(tail)
    requires files.live == Some(TextOf(json, tail))
    ensures Reading(json, keep, files).0.Ok? <==> first == 1
  {
    hide Sound, Loggable, TextOf, Reading, Torn, Consecutive, AllLogged;
    SlotsFromUnique(files.shards, 1, keep, 0);
    assert Flat([]) + tail == tail;
    LoadAcceptsExactly(json, keep, files, [], tail, first);
  }

  // ---- The disk refines the memory -----------------------------------------------------

  // At every moment between appends the directory needs no repair and reads back
  // as the end of the memory, up to the same seq; the memory is itself the end of
  // everything appended; and no slot past the largest retention is in use.
  lemma DiskRefinesMemory(json: JsonText, b: Bounds, steps: seq<Step>)
    requires Sound(json) && BoundsOk(b) && Legal(json, b, steps) && After(json, b, steps).log.Some?
    ensures var w := After(json, b, steps);
            var m := w.log.value.mem;
            var (r, files) := Reading(json, w.log.value.policy.keep, w.files);
            && IsSuffix(m.frames, w.history) && m.high == |w.history| && m.tracked == TrackAll(m.frames)
            && r.Ok? && files == w.files
            && IsSuffix(r.value.frames, m.frames) && r.value.high == m.high && (m.frames != [] ==> r.value.frames != [])
            && (forall s :: s in w.files.shards ==> 1 <= s <= b.mostKeep)
  {
    EveryRunIsOk(json, b, steps);
    var w := After(json, b, steps);
    var running := w.log.value;
    hide Legal, After, Reading, Unread, TrackAll;
    var l, shape, base :| Explains(json, b, w, l, shape, base);
    RestingDisk(json, b, w, l, shape, base);
    RestingMemory(json, b, w, l, shape, base);
  }

  lemma RestingMemory(json: JsonText, b: Bounds, w: World, l: Layout, shape: Shape, base: nat)
    requires w.log.Some? && Explains(json, b, w, l, shape, base)
    ensures var m := w.log.value.mem;
            && PolicyOk(b, w.log.value.policy) && base <= |w.history| && |m.frames| == |w.history| - base
            && IsSuffix(m.frames, w.history) && m.high == |w.history| && m.tracked == TrackAll(m.frames)
    ensures forall s :: s in w.files.shards ==> 1 <= s <= b.mostKeep
  {
  }

  // What a reload would read while the log is running.
  lemma RestingDisk(json: JsonText, b: Bounds, w: World, l: Layout, shape: Shape, base: nat)
    requires Sound(json) && BoundsOk(b) && w.log.Some? && Explains(json, b, w, l, shape, base)
    ensures var m := w.log.value.mem;
            var (r, files) := Reading(json, w.log.value.policy.keep, w.files);
            && r.Ok? && files == w.files && r.value.high == m.high && r.value.tracked == TrackAll(r.value.frames)
            && IsSuffix(r.value.frames, m.frames) && (m.frames != [] ==> r.value.frames != [])
  {
    hide DiskOk, TextOf, Unread, TrackAll, Reading, Mended, LiveFits;
    ReloadReads(json, b, w.files, w.history, l, shape, w.log.value.policy.keep);
    RestingFiles(json, b, w, l, shape, base);
    var unread := Unread(l, w.log.value.policy.keep);
    assert w.history[base..][unread - base..] == w.history[unread..];
  }

  lemma RestingFiles(json: JsonText, b: Bounds, w: World, l: Layout, shape: Shape, base: nat)
    requires w.log.Some? && Explains(json, b, w, l, shape, base)
    ensures AllLogged(l.tail) && Mended(json, w.files.live, l.tail) == w.files.live
  {
    hide Consecutive, ShardsFit, FullEnough, SlotsOk, Flat, TextOf;
  }

  // ---- Settling -------------------------------------------------------------------------

  ghost predicate Named(names: seq<string>) {
    forall name :: name in names ==> |name| > 0
  }

  lemma LoggedToolIsNamed(f: Frame)
    requires Loggable(f)
    ensures f.Tool? ==> |f.name| > 0
  {
    if f.Tool? { PlainReadsBack(UTool(f.name, f.edge), f.seqNo); }
  }

  lemma NothingNamed()
    ensures Named([])
  {
  }

  lemma TrackKeepsNamed(t: Tracked, f: Frame)
    requires Named(t.openTools) && (f.Tool? ==> |f.name| > 0)
    ensures Named(Track(t, f).openTools)
  {
    if f.Tool? {
      assert forall name :: name in WithoutLast(t.openTools, f.name) ==> name in t.openTools;
    }
  }

  lemma {:induction false} OpenToolsAreNamed(frames: seq<Frame>, first: int)
    requires Consecutive(frames, first)
    ensures Named(TrackAll(frames).openTools)
  {
    hide Track, Named, Loggable;
    if |frames| == 0 {
      NothingNamed();
    } else {
      var init, last := frames[..|frames| - 1], frames[|frames| - 1];
      ConsecutiveParts(init, [last], first) by { assert frames == init + [last]; }
      OpenToolsAreNamed(init, first);
      LoggedToolIsNamed([last][0]);
      TrackKeepsNamed(TrackAll(init), last);
    }
  }

  function CloseOne(t: Tracked): Tracked {
    if |t.openTools| > 0 then t.(openTools := t.openTools[..|t.openTools| - 1]) else t.(turnOpen := false)
  }

  // Each closing frame closes the newest open tool, or else the turn.
  lemma ClosingTail(t: Tracked, n: nat)
    requires Closing(t) != []
    ensures Track(t, WithSeq(Closing(t)[0], n)) == CloseOne(t)
    ensures Closing(t) == [Closing(t)[0]] + Closing(CloseOne(t))
  {
    if |t.openTools| > 0 {
      var last := |t.openTools| - 1;
      assert t.openTools[..last] + t.openTools[last + 1..] == t.openTools[..last];
    }
  }

  lemma ClosingAccepted(t: Tracked, n: nat)
    requires Closing(t) != [] && Named(t.openTools) && n <= MAX_SAFE_INTEGER
    ensures Accepted(Closing(t)[0], n) && Named(CloseOne(t).openTools)
  {
    AcceptedFramesReadBack(Closing(t)[0], n);
    if |t.openTools| > 0 {
      assert t.openTools[|t.openTools| - 1] in t.openTools;
    }
  }

  function Sequenced(us: seq<Unsequenced>, n: nat): seq<Frame> {
    if |us| == 0 then [] else [WithSeq(us[0], n)] + Sequenced(us[1..], n + 1)
  }

  // Settling closes whatever is open, one closing frame at a time, and leaves a
  // history whose own replay finds nothing open.
  lemma {:induction false} ClosingSettles(json: JsonText, policy: Policy, m: Mem, files: Files)
    requires m.tracked == TrackAll(m.frames) && Named(m.tracked.openTools)
    requires Closing(m.tracked) == [] || m.high + |Closing(m.tracked)| <= MAX_SAFE_INTEGER
    ensures |Closing(m.tracked)| == |m.tracked.openTools| + (if m.tracked.turnOpen then 1 else 0)
    ensures var (r, after, _) := AppendingAll(json, policy, m, files, Closing(m.tracked));
            && r == Ok(Sequenced(Closing(m.tracked), m.high + 1)) && after.frames == m.frames + r.value
            && after.tracked == TrackAll(after.frames) && Settled(after.tracked)
            && after.tracked == m.tracked.(openTools := [], turnOpen := false)
    decreases |m.tracked.openTools|, m.tracked.turnOpen
  {
    hide Accepted, TrackFrom, Track, Placed, WithSeq, LineText, Closing, TrackAll, Named;
    var us := Closing(m.tracked);
    NothingToClose(m.tracked);
    if us != [] {
      var first := Appending(json, policy, m, files, us[0]);
      ClosingTail(m.tracked, m.high + 1);
      ClosingAccepted(m.tracked, m.high + 1);
      MemoryGrows(m, m.frames, 0, WithSeq(us[0], m.high + 1));
      assert us[1..] == Closing(first.mem.tracked);
      ClosingSettles(json, policy, first.mem, first.files);
      assert m.frames + [WithSeq(us[0], m.high + 1)] + Sequenced(us[1..], m.high + 2) == m.frames + Sequenced(us, m.high + 1);
    }
  }

  lemma NothingToClose(t: Tracked)
    ensures Closing(t) == [] <==> Settled(t)
  {
  }

  // ---- Booting -----------------------------------------------------------------------

  // The lines of these frames, numbered from n, fit the bounds.
  ghost predicate LinesFit(json: JsonText, b: Bounds, us: seq<Unsequenced>, n: nat)
    decreases |us|
  {
    |us| == 0
    || (|LineText(json, WithSeq(us[0], n))| <= b.longest && n <= MAX_SAFE_INTEGER && LinesFit(json, b, us[1..], n + 1))
  }

  lemma {:induction false} AppendsKeepWorld(
      json: JsonText, b: Bounds, policy: Policy, m: Mem, files: Files, history: seq<Frame>, us: seq<Unsequenced>)
    requires Sound(json) && BoundsOk(b) && WorldOk(json, b, World(files, Some(Running(policy, m)), history))
    requires LinesFit(json, b, us, m.high + 1) && AppendingAll(json, policy, m, files, us).0.Ok?
    ensures var (r, mem, after) := AppendingAll(json, policy, m, files, us);
            WorldOk(json, b, World(after, Some(Running(policy, mem)), history + r.value))
    decreases |us|
  {
    hide Sound, WorldOk, Accepted, LineText, Placed;
    if |us| == 0 {
      assert history + [] == history;
    } else {
      var first := Appending(json, policy, m, files, us[0]);
      var w := World(files, Some(Running(policy, m)), history);
      AppendIsOneStep(json, b, w, us[0]);
      StepKeepsWorld(json, b, w, Append(us[0]));
      AppendsKeepWorld(json, b, policy, first.mem, first.files, history + [first.outcome.value], us[1..]);
      var rest := AppendingAll(json, policy, first.mem, first.files, us[1..]).0.value;
      assert history + [first.outcome.value] + rest == history + ([first.outcome.value] + rest);
    }
  }

  lemma AppendIsOneStep(json: JsonText, b: Bounds, w: World, u: Unsequenced)
    requires w.log.Some? && Fits(json, b, w.log.value.mem, u)
    requires Appending(json, w.log.value.policy, w.log.value.mem, w.files, u).outcome.Ok?
    ensures Enabled(json, b, w, Append(u))
    ensures var first := Appending(json, w.log.value.policy, w.log.value.mem, w.files, u);
            && Apply(json, b, w, Append(u))
               == World(first.files, Some(Running(w.log.value.policy, first.mem)), w.history + [first.outcome.value])
            && first.mem.high == w.log.value.mem.high + 1
  {
    hide Accepted, LineText, Placed;
  }

  // Booting after any run, closing frames included: the log opens, what it holds
  // is the end of the history and of the frames that close it, nothing is open,
  // and the directory reads back as the end of that, with nothing to mend.
  lemma BootSettles(json: JsonText, b: Bounds, steps: seq<Step>, policy: Policy)
    requires Sound(json) && BoundsOk(b) && Legal(json, b, steps) && After(json, b, steps).log.None?
    requires PolicyOk(b, policy)
    requires var w := After(json, b, steps);
             var r := Reading(json, policy.keep, w.files).0;
             r.Ok? ==> LinesFit(json, b, Closing(r.value.tracked), |w.history| + 1)
    ensures var w := After(json, b, steps);
            var (r, files) := Reading(json, policy.keep, w.files);
            && r.Ok?
            && var (closed, mem, after) := AppendingAll(json, policy, r.value, files, Closing(r.value.tracked));
               && closed == Ok(Sequenced(Closing(r.value.tracked), |w.history| + 1))
               && Settled(mem.tracked) && mem.high == |w.history| + |closed.value|
               && mem.frames == r.value.frames + closed.value && mem.tracked == TrackAll(mem.frames)
               && IsSuffix(mem.frames, w.history + closed.value)
               && Reading(json, policy.keep, after).1 == after && Reading(json, policy.keep, after).0.Ok?
               && IsSuffix(Reading(json, policy.keep, after).0.value.frames, mem.frames)
  {
    hide Legal, After, Reading, DiskOk, MemoryOk, AppendingAll, Closing, TrackAll, Sequenced, Settled, LinesFit;
    EveryRunIsOk(json, b, steps);
    var w := After(json, b, steps);
    BootOpens(json, b, w, policy);
    BootCloses(json, b, Reading(json, policy.keep, w.files).1, Reading(json, policy.keep, w.files).0.value, w.history, policy);
  }

  lemma BootOpens(json: JsonText, b: Bounds, w: World, policy: Policy)
    requires Sound(json) && BoundsOk(b) && WorldOk(json, b, w) && w.log.None? && PolicyOk(b, policy)
    ensures var (r, files) := Reading(json, policy.keep, w.files);
            r.Ok? && WorldOk(json, b, World(files, Some(Running(policy, r.value)), w.history))
  {
    hide Reading, DiskOk, MemoryOk;
    var l, shape, base :| Explains(json, b, w, l, shape, base);
    BootKeepsWorld(json, b, w, policy, l, shape, base);
  }

  lemma BootCloses(json: JsonText, b: Bounds, files: Files, m: Mem, history: seq<Frame>, policy: Policy)
    requires Sound(json) && BoundsOk(b) && WorldOk(json, b, World(files, Some(Running(policy, m)), history))
    requires LinesFit(json, b, Closing(m.tracked), |history| + 1)
    ensures var (closed, mem, after) := AppendingAll(json, policy, m, files, Closing(m.tracked));
            && closed == Ok(Sequenced(Closing(m.tracked), |history| + 1))
            && Settled(mem.tracked) && mem.high == |history| + |closed.value|
            && mem.frames == m.frames + closed.value && mem.tracked == TrackAll(mem.frames)
            && IsSuffix(mem.frames, history + closed.value)
            && Reading(json, policy.keep, after).1 == after && Reading(json, policy.keep, after).0.Ok?
            && IsSuffix(Reading(json, policy.keep, after).0.value.frames, mem.frames)
  {
    hide Reading, DiskOk, MemoryOk, AppendingAll, Closing, TrackAll, Sequenced, Settled, WorldOk, Explains, LinesFit, Named;
    var w := World(files, Some(Running(policy, m)), history);
    var base := HeldHistory(json, b, w);
    OpenToolsAreNamed(m.frames, base + 1);
    if Closing(m.tracked) != [] {
      ClosingCountFits(json, b, Closing(m.tracked), m.high + 1);
    }
    ClosingSettles(json, policy, m, files);
    AppendsKeepWorld(json, b, policy, m, files, history, Closing(m.tracked));
    var (closed, mem, after) := AppendingAll(json, policy, m, files, Closing(m.tracked));
    var settled := World(after, Some(Running(policy, mem)), history + closed.value);
    var later := HeldHistory(json, b, settled);
    SettledDisk(json, b, settled);
  }

  // The memory of a reachable world, as the consecutive end of its history.
  lemma HeldHistory(json: JsonText, b: Bounds, w: World) returns (base: nat)
    requires WorldOk(json, b, w) && w.log.Some?
    ensures var m := w.log.value.mem;
            && m.high == |w.history| && m.tracked == TrackAll(m.frames)
            && IsSuffix(m.frames, w.history) && Consecutive(m.frames, base + 1)
  {
    hide DiskOk, MemoryOk, TrackAll, Consecutive;
    var l: Layout, shape: Shape, at: nat :| Explains(json, b, w, l, shape, at);
    base := at;
    RestingMemory(json, b, w, l, shape, base);
    HistoryCounts(json, b, w.files, w.history, l, shape);
    assert w.history == w.history[..base] + w.log.value.mem.frames;
    ConsecutiveParts(w.history[..base], w.log.value.mem.frames, 1);
  }

  lemma SettledDisk(json: JsonText, b: Bounds, w: World)
    requires Sound(json) && BoundsOk(b) && WorldOk(json, b, w) && w.log.Some?
    ensures var (r, files) := Reading(json, w.log.value.policy.keep, w.files);
            r.Ok? && files == w.files && IsSuffix(r.value.frames, w.log.value.mem.frames)
  {
    hide DiskOk, MemoryOk, TrackAll, Reading;
    var l, shape, base :| Explains(json, b, w, l, shape, base);
    RestingDisk(json, b, w, l, shape, base);
  }

  lemma {:induction false} ClosingCountFits(json: JsonText, b: Bounds, us: seq<Unsequenced>, n: nat)
    requires LinesFit(json, b, us, n) && us != []
    ensures n + |us| - 1 <= MAX_SAFE_INTEGER
    decreases |us|
  {
    hide LineText;
    if |us| > 1 { ClosingCountFits(json, b, us[1..], n + 1); }
  }

  // ---- Reading less of a history ---------------------------------------------------------

  lemma SpliceCounts(before: seq<string>, name: string, after: seq<string>)
    ensures multiset(before + [name] + after) == multiset(before + after) + multiset{name}
  {
  }

  lemma AbsentCounts(names: seq<string>, name: string)
    requires name !in names
    ensures multiset(names) - multiset{name} == multiset(names)
  {
    assert multiset(names)[name] == 0;
  }

  lemma WithoutLastCounts(names: seq<string>, name: string)
    ensures multiset(WithoutLast(names, name)) == multiset(names) - multiset{name}
  {
    hide LastIndexOf;
    var i := LastIndexOf(names, name);
    if i < 0 {
      AbsentCounts(names, name);
    } else {
      assert names == names[..i] + [name] + names[i + 1..];
      SpliceCounts(names[..i], name, names[i + 1..]);
    }
  }

  ghost predicate OpensNoMore(a: Tracked, b: Tracked) {
    multiset(a.openTools) <= multiset(b.openTools) && (a.turnOpen ==> b.turnOpen)
  }

  lemma TrackOpensNoMore(a: Tracked, b: Tracked, f: Frame)
    requires OpensNoMore(a, b)
    ensures OpensNoMore(Track(a, f), Track(b, f))
  {
    hide WithoutLast;
    if f.Tool? {
      WithoutLastCounts(a.openTools, f.name);
      WithoutLastCounts(b.openTools, f.name);
    }
  }

  // A reload that reads only the end of a history finds nothing open that the
  // whole history had not.
  lemma {:induction false} SuffixOpensNoMore(before: seq<Frame>, frames: seq<Frame>)
    ensures OpensNoMore(TrackAll(frames), TrackAll(before + frames))
  {
    if |frames| > 0 {
      var last := |frames| - 1;
      SuffixOpensNoMore(before, frames[..last]);
      TrackOpensNoMore(TrackAll(frames[..last]), TrackAll(before + frames[..last]), frames[last]);
      assert (before + frames)[..|before + frames| - 1] == before + frames[..last];
    }
  }

  lemma NothingOpen(a: Tracked, b: Tracked)
    requires OpensNoMore(a, b) && Settled(b)
    ensures Settled(a)
  {
    assert |multiset(a.openTools)| == |a.openTools|;
  }

  // ---- Dedup -------------------------------------------------------------------------------

  predicate HasSeenUserId(t: Tracked, id: string, epoch: nat, floor: nat) {
    || (epoch, id) in t.seenUserIds
    || (if id in t.legacySeenUserIds then t.legacySeenUserIds[id] else 0) > floor
  }

  ghost predicate StampedUser(f: Frame, id: string, epoch: nat) {
    f.User? && f.clientMsgId == id && f.epoch == Some(epoch)
  }

  ghost predicate LegacyUser(f: Frame, id: string) {
    f.User? && f.clientMsgId == id && f.epoch.None?
  }

  ghost predicate HoldsUser(frames: seq<Frame>, id: string, epoch: nat, floor: nat) {
    exists i :: 0 <= i < |frames|
                && (StampedUser(frames[i], id, epoch) || (LegacyUser(frames[i], id) && frames[i].seqNo > floor))
  }

  lemma {:induction false} StampedIsSeen(frames: seq<Frame>, id: string, epoch: nat)
    ensures (epoch, id) in TrackAll(frames).seenUserIds <==>
            exists i :: 0 <= i < |frames| && StampedUser(frames[i], id, epoch)
  {
    if |frames| > 0 {
      var init := frames[..|frames| - 1];
      StampedIsSeen(init, id, epoch);
      assert forall i :: 0 <= i < |init| ==> init[i] == frames[i];
    }
  }

  lemma TrackLegacy(t: Tracked, f: Frame)
    ensures Track(t, f).legacySeenUserIds
         == if f.User? && f.epoch.None? then t.legacySeenUserIds[f.clientMsgId := f.seqNo] else t.legacySeenUserIds
  {
    hide WithoutLast;
  }

  lemma LegacyEndsAt(init: seq<Frame>, last: Frame, first: int)
    requires Consecutive(init + [last], first)
    ensures last.User? ==> forall i :: 0 <= i < |init| && init[i].User? ==> init[i].seqNo < last.seqNo
  {
    hide Loggable;
    var all := init + [last];
    assert all[|init|] == last && forall i :: 0 <= i < |init| ==> all[i] == init[i];
  }

  lemma {:induction false} LegacyIsSeen(frames: seq<Frame>, first: int, id: string)
    requires Consecutive(frames, first)
    ensures var seen := TrackAll(frames).legacySeenUserIds;
            && (id in seen <==> exists i :: 0 <= i < |frames| && LegacyUser(frames[i], id))
            && (forall i :: 0 <= i < |frames| && LegacyUser(frames[i], id) ==> frames[i].seqNo <= seen[id])
            && (id in seen ==> exists i :: 0 <= i < |frames| && LegacyUser(frames[i], id) && frames[i].seqNo == seen[id])
  {
    hide Loggable;
    if |frames| > 0 {
      var init, last := frames[..|frames| - 1], frames[|frames| - 1];
      assert frames == init + [last];
      ConsecutiveParts(init, [last], first);
      LegacyIsSeen(init, first, id);
      LegacyEndsAt(init, last, first);
      hide Track, Consecutive;
      TrackLegacy(TrackAll(init), last);
      assert forall i :: 0 <= i < |init| ==> init[i] == frames[i];
    }
  }

  // A user id counts as seen exactly when the held history has a message with it
  // in this epoch, or an unstamped one past the replay floor.
  lemma HasSeenMeansHeld(frames: seq<Frame>, first: int, id: string, epoch: nat, floor: nat)
    requires Consecutive(frames, first)
    ensures HasSeenUserId(TrackAll(frames), id, epoch, floor) <==> HoldsUser(frames, id, epoch, floor)
  {
    hide TrackAll, Consecutive;
    StampedIsSeen(frames, id, epoch);
    LegacyIsSeen(frames, first, id);
  }

  // ---- Replay --------------------------------------------------------------------------------

  function Above(frames: seq<Frame>, floor: nat): seq<Frame> {
    if |frames| == 0 then []
    else
      var last := frames[|frames| - 1];
      Above(frames[..|frames| - 1], floor)
      + (if LoggedKind(last) && LoggedFrameSeq(last) > floor then [last] else [])
  }

  function ReplayAfter(m: Mem, lastSeenSeq: nat, replayFloorSeq: nat): seq<Frame> {
    Above(m.frames, if lastSeenSeq >= replayFloorSeq then lastSeenSeq else replayFloorSeq)
  }

  // How many of the frames numbered from `first` a reader at `floor` already has.
  function Already(frames: seq<Frame>, first: nat, floor: nat): nat {
    if floor < first then 0 else if floor - first + 1 >= |frames| then |frames| else floor - first + 1
  }

  lemma AboveGrows(init: seq<Frame>, last: Frame, floor: nat)
    ensures Above(init + [last], floor)
         == if LoggedKind(last) && LoggedFrameSeq(last) > floor then Above(init, floor) + [last] else Above(init, floor)
  {
    assert (init + [last])[..|init|] == init;
  }

  lemma AlreadyGrows(init: seq<Frame>, last: Frame, first: nat, floor: nat)
    ensures var k := Already(init, first, floor);
            k <= |init| && (if first + |init| > floor then init[k..] + [last] else init[k..])
                           == (init + [last])[Already(init + [last], first, floor)..]
  {
  }

  lemma {:induction false} AboveIsSuffix(frames: seq<Frame>, first: nat, floor: nat)
    requires Consecutive(frames, first)
    ensures Already(frames, first, floor) <= |frames|
    ensures Above(frames, floor) == frames[Already(frames, first, floor)..]
  {
    if |frames| > 0 {
      hide Sound, Loggable, Above, Already;
      var init, last := frames[..|frames| - 1], frames[|frames| - 1];
      assert frames == init + [last];
      ConsecutiveParts(init, [last], first);
      AboveIsSuffix(init, first, floor);
      AboveGrows(init, last, floor);
      AlreadyGrows(init, last, first, floor);
      SeqAtEnd(init, last, first);
    }
    assert Already(frames, first, floor) <= |frames|;
  }

  lemma SeqAtEnd(init: seq<Frame>, last: Frame, first: int)
    requires Consecutive(init + [last], first)
    ensures LoggedKind(last) && LoggedFrameSeq(last) == first + |init|
  {
    assert (init + [last])[|init|] == last;
  }

  lemma ReplayReads(json: JsonText, b: Bounds, w: World, floor: nat)
    requires WorldOk(json, b, w) && w.log.Some?
    ensures var m := w.log.value.mem;
            var replay := Above(m.frames, floor);
            && IsSuffix(replay, m.frames)
            && |replay| == if floor >= m.high then 0 else if m.high - floor <= |m.frames| then m.high - floor else |m.frames|
  {
    hide DiskOk, MemoryOk, TrackAll, Above, Consecutive;
    var l: Layout, shape: Shape, base: nat :| Explains(json, b, w, l, shape, base);
    RestingMemory(json, b, w, l, shape, base);
    var m := w.log.value.mem;
    HistoryCounts(json, b, w.files, w.history, l, shape);
    assert w.history == w.history[..base] + m.frames;
    ConsecutiveParts(w.history[..base], m.frames, 1);
    AboveIsSuffix(m.frames, base + 1, floor);
  }

  // A reconnect replays exactly the end of what is held: every frame past what
  // the client and the replay floor cover, once, in order.
  lemma ReplayIsTheRest(json: JsonText, b: Bounds, steps: seq<Step>, lastSeenSeq: nat, replayFloorSeq: nat)
    requires Sound(json) && BoundsOk(b) && Legal(json, b, steps) && After(json, b, steps).log.Some?
    ensures var m := After(json, b, steps).log.value.mem;
            var replay := ReplayAfter(m, lastSeenSeq, replayFloorSeq);
            var floor := if lastSeenSeq >= replayFloorSeq then lastSeenSeq else replayFloorSeq;
            && IsSuffix(replay, m.frames)
            && |replay| == if floor >= m.high then 0 else if m.high - floor <= |m.frames| then m.high - floor else |m.frames|
  {
    hide WorldOk, Above, IsSuffix;
    EveryRunIsOk(json, b, steps);
    ReplayReads(json, b, After(json, b, steps), if lastSeenSeq >= replayFloorSeq then lastSeenSeq else replayFloorSeq);
  }
}
