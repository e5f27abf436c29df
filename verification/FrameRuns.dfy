// Runs of the chat frame log over its directory: boots, appends, and crashes
// part-way through an append; what every run keeps, and what a reload finds.
module FrameRuns {
  import opened JavaScript
  import opened Outcomes
  import opened ChatFrames
  import opened FrameHistory
  import opened FrameReading
  import opened FrameAppending

  // ---- Runs ------------------------------------------------------------------

  datatype Running = Running(policy: Policy, mem: Mem)

  // `history` is every frame whose line reached the disk, with or without its
  // newline.
  datatype World = World(files: Files, log: Option<Running>, history: seq<Frame>)

  const START: World := World(Files(None, map[]), None, [])

  // What is known of a run: the longest line any append writes, and the range of
  // the retention policies it boots with.
  datatype Bounds = Bounds(longest: nat, leastMax: nat, leastKeep: nat, mostKeep: nat)

  predicate BoundsOk(b: Bounds) {
    2 * b.longest <= b.leastMax && 1 <= b.leastKeep
  }

  datatype Step =
    | Boot(policy: Policy)
    | Append(frame: Unsequenced)
    | Crash(torn: Unsequenced, written: nat, created: bool)
    | Stop

  predicate PolicyOk(b: Bounds, policy: Policy) {
    b.leastMax <= policy.maxBytes && b.leastKeep <= policy.keep <= b.mostKeep
  }

  // The line fits the bounds and its seq is still a safe integer.
  predicate Fits(json: JsonText, b: Bounds, m: Mem, u: Unsequenced) {
    |LineText(json, WithSeq(u, m.high + 1))| <= b.longest && m.high < MAX_SAFE_INTEGER
  }

  predicate Enabled(json: JsonText, b: Bounds, w: World, step: Step) {
    match step
    case Boot(policy) => w.log.None? && PolicyOk(b, policy)
    case Append(u) => w.log.Some? && Fits(json, b, w.log.value.mem, u)
    case Crash(u, n, _) =>
      && w.log.Some? && Fits(json, b, w.log.value.mem, u) && Accepted(u, w.log.value.mem.high + 1)
      && n <= |LineText(json, WithSeq(u, w.log.value.mem.high + 1))|
    case Stop => w.log.Some?
  }

  // The rotation before the write is done; of the line, `n` bytes are. A file
  // that received none may not even exist.
  function AfterCrash(json: JsonText, running: Running, files: Files, u: Unsequenced, n: nat, created: bool): Files
    requires n <= |LineText(json, WithSeq(u, running.mem.high + 1))|
  {
    var text := LineText(json, WithSeq(u, running.mem.high + 1));
    var placed := Placed(running.policy, running.mem.liveBytes, files, |text|).0;
    if n == 0 && !created then placed else Written(placed, text[..n])
  }

  function Apply(json: JsonText, b: Bounds, w: World, step: Step): World
    requires Enabled(json, b, w, step)
  {
    match step
    case Boot(policy) =>
      var (outcome, files) := Reading(json, policy.keep, w.files);
      World(files, if outcome.Ok? then Some(Running(policy, outcome.value)) else None, w.history)
    case Append(u) =>
      var running := w.log.value;
      var appended := Appending(json, running.policy, running.mem, w.files, u);
      World(appended.files, Some(Running(running.policy, appended.mem)),
            if appended.outcome.Ok? then w.history + [appended.outcome.value] else w.history)
    case Crash(u, n, created) => Crashed(json, w, u, n, created)
    case Stop => w.(log := None)
  }

  function Crashed(json: JsonText, w: World, u: Unsequenced, n: nat, created: bool): World
    requires w.log.Some? && n <= |LineText(json, WithSeq(u, w.log.value.mem.high + 1))|
  {
    var f := WithSeq(u, w.log.value.mem.high + 1);
    World(AfterCrash(json, w.log.value, w.files, u, n, created), None,
          if n >= |Line(json, f)| then w.history + [f] else w.history)
  }

  predicate Legal(json: JsonText, b: Bounds, steps: seq<Step>)
    decreases |steps|, 0
  {
    |steps| == 0
    || var last := |steps| - 1;
       Legal(json, b, steps[..last]) && Enabled(json, b, After(json, b, steps[..last]), steps[last])
  }

  function After(json: JsonText, b: Bounds, steps: seq<Step>): World
    requires Legal(json, b, steps)
    decreases |steps|, 1
  {
    if |steps| == 0 then START
    else Apply(json, b, After(json, b, steps[..|steps| - 1]), steps[|steps| - 1])
  }

  // ---- What the directory holds ---------------------------------------------------

  // The history in its places: what retention dropped, the shards oldest first,
  // and the live file.
  datatype Layout = Layout(dropped: seq<Frame>, segs: seq<seq<Frame>>, tail: seq<Frame>)

  ghost predicate FullEnough(json: JsonText, b: Bounds, segs: seq<seq<Frame>>) {
    forall i :: 0 <= i < |segs| ==>
      segs[i] != [] && AllLogged(segs[i]) && |TextOf(json, segs[i])| + 2 * b.longest > b.leastMax
  }

  ghost predicate SlotsOk(b: Bounds, shards: map<nat, string>, held: nat) {
    held + 1 !in shards && held <= b.mostKeep && forall s :: s in shards ==> 1 <= s <= b.mostKeep
  }

  ghost predicate RetentionOk(b: Bounds, l: Layout) {
    l.dropped != [] ==> |l.segs| >= b.leastKeep
  }

  ghost predicate DiskOk(json: JsonText, b: Bounds, files: Files, history: seq<Frame>, l: Layout, shape: Shape) {
    && Consecutive(history, 1) && history == l.dropped + (Flat(l.segs) + l.tail)
    && ShardsFit(json, files.shards, l.segs) && FullEnough(json, b, l.segs)
    && SlotsOk(b, files.shards, |l.segs|) && RetentionOk(b, l)
    && AllLogged(l.tail) && LiveFits(json, files.live, l.tail, shape)
    && TornSize(shape) <= b.longest
  }

  // ---- Writing -----------------------------------------------------------------------

  predicate AtRest(shape: Shape) {
    shape.Whole? || shape.Absent?
  }

  lemma HistoryGrows(history: seq<Frame>, f: Frame)
    requires Consecutive(history, 1) && Loggable(f) && LoggedFrameSeq(f) == |history| + 1
    ensures Consecutive(history + [f], 1)
  {
  }

  lemma TailGrows(json: JsonText, files: Files, tail: seq<Frame>, shape: Shape, f: Frame)
    requires AllLogged(tail) && LoggedKind(f) && AtRest(shape) && LiveFits(json, files.live, tail, shape)
    ensures AllLogged(tail + [f])
    ensures Written(files, LineText(json, f)).live == Some(TextOf(json, tail + [f]))
    ensures forall text :: Written(files, text).live == Some(TextOf(json, tail) + text)
  {
    NoText(json);
    TextAppend(json, tail, [f]);
    TextOne(json, f);
    assert forall text: string :: "" + text == text;
  }

  lemma WritesWhole(json: JsonText, b: Bounds, files: Files, history: seq<Frame>, l: Layout, shape: Shape, f: Frame)
    requires DiskOk(json, b, files, history, l, shape) && AtRest(shape)
    requires Loggable(f) && LoggedFrameSeq(f) == |history| + 1
    ensures DiskOk(json, b, Written(files, LineText(json, f)), history + [f], l.(tail := l.tail + [f]), Whole)
  {
    hide Sound, Loggable, Consecutive, ShardsFit, FullEnough, SlotsOk, TextOf, LineText, Flat;
    HistoryGrows(history, f);
    LoggableIsLogged(f);
    TailGrows(json, files, l.tail, shape, f);
    assert l.dropped + (Flat(l.segs) + l.tail) + [f] == l.dropped + (Flat(l.segs) + (l.tail + [f]));
  }

  lemma WritesTorn(json: JsonText, b: Bounds, files: Files, history: seq<Frame>, l: Layout, shape: Shape, f: Frame, n: nat)
    requires Sound(json) && DiskOk(json, b, files, history, l, shape) && AtRest(shape)
    requires Loggable(f) && 0 < n < |Line(json, f)| <= b.longest
    ensures DiskOk(json, b, Written(files, LineText(json, f)[..n]), history, l, TornBy(LineText(json, f)[..n]))
  {
    hide Consecutive, ShardsFit, FullEnough, SlotsOk, TextOf, Flat;
    LinesReadBack(json, f);
    TailGrows(json, files, l.tail, shape, f);
    assert LineText(json, f)[..n] == Line(json, f)[..n];
  }

  lemma WritesUnterminated(json: JsonText, b: Bounds, files: Files, history: seq<Frame>, l: Layout, shape: Shape, f: Frame)
    requires DiskOk(json, b, files, history, l, shape) && AtRest(shape)
    requires Loggable(f) && LoggedFrameSeq(f) == |history| + 1
    ensures DiskOk(json, b, Written(files, Line(json, f)), history + [f], l.(tail := l.tail + [f]), Unterminated)
  {
    hide Sound, Loggable, Consecutive, ShardsFit, FullEnough, SlotsOk, TextOf, Flat;
    WritesWhole(json, b, files, history, l, shape, f);
    LoggableIsLogged(f);
    TailGrows(json, files, l.tail, shape, f);
    var held := TextOf(json, l.tail);
    assert held + LineText(json, f) == held + Line(json, f) + "\n";
  }

  // ---- Rotating --------------------------------------------------------------------------

  lemma {:induction false} FlatAppend(a: seq<seq<Frame>>, b: seq<seq<Frame>>)
    ensures Flat(a + b) == Flat(a) + Flat(b)
  {
    if |a| == 0 {
      assert a + b == b;
    } else {
      FlatAppend(a[1..], b);
      assert (a + b)[0] == a[0] && (a + b)[1..] == a[1..] + b;
      assert a[0] + (Flat(a[1..]) + Flat(b)) == a[0] + Flat(a[1..]) + Flat(b);
    }
  }

  // The segments a rotation leaves: the live file joins, the oldest fall off.
  function Kept(segs: seq<seq<Frame>>, tail: seq<Frame>, keep: nat): seq<seq<Frame>> {
    var all := segs + [tail];
    if |all| <= keep then all else all[|all| - keep..]
  }

  function Pruned(segs: seq<seq<Frame>>, tail: seq<Frame>, keep: nat): seq<seq<Frame>> {
    var all := segs + [tail];
    if |all| <= keep then [] else all[..|all| - keep]
  }

  function RotatedLayout(l: Layout, keep: nat): Layout {
    Layout(l.dropped + Flat(Pruned(l.segs, l.tail, keep)), Kept(l.segs, l.tail, keep), [])
  }

  lemma RotatedHistory(l: Layout, keep: nat)
    ensures var r := RotatedLayout(l, keep);
            r.dropped + (Flat(r.segs) + r.tail) == l.dropped + (Flat(l.segs) + l.tail)
  {
    var pruned, kept := Pruned(l.segs, l.tail, keep), Kept(l.segs, l.tail, keep);
    assert pruned + kept == l.segs + [l.tail];
    hide Pruned, Kept;
    FlatAppend(pruned, kept);
    FlatWithTail(l.segs, l.tail);
    hide Flat;
    assert l.dropped + Flat(pruned) + (Flat(kept) + []) == l.dropped + (Flat(pruned) + Flat(kept));
  }

  lemma FlatWithTail(segs: seq<seq<Frame>>, tail: seq<Frame>)
    ensures Flat(segs + [tail]) == Flat(segs) + tail
  {
    FlatAppend(segs, [tail]);
    assert [tail][1..] == [] && Flat([tail]) == tail + [];
  }

  lemma RotatedShards(json: JsonText, files: Files, segs: seq<seq<Frame>>, tail: seq<Frame>, keep: nat)
    requires ShardsFit(json, files.shards, segs) && keep > 0
    requires AllLogged(tail) && files.live == Some(TextOf(json, tail))
    ensures ShardsFit(json, Rotated(files, keep).shards, Kept(segs, tail, keep))
  {
    hide TextOf, Rotated;
    var kept := Kept(segs, tail, keep);
    forall i: nat | 1 <= i <= |kept|
      ensures i in Rotated(files, keep).shards && AllLogged(kept[|kept| - i])
           && Rotated(files, keep).shards[i] == TextOf(json, kept[|kept| - i])
    {
      RotatedSlots(files, keep, i);
      if i == 1 {
        assert kept[|kept| - 1] == tail;
      } else {
        assert kept[|kept| - i] == segs[|segs| - (i - 1)];
      }
    }
  }

  lemma RotatedBounds(b: Bounds, files: Files, segs: seq<seq<Frame>>, tail: seq<Frame>, keep: nat)
    requires SlotsOk(b, files.shards, |segs|) && 1 <= keep <= b.mostKeep
    ensures SlotsOk(b, Rotated(files, keep).shards, |Kept(segs, tail, keep)|)
    ensures forall s :: s in Rotated(files, keep).shards && s > keep ==> s > keep + PRUNED_PAST_KEEP
  {
    hide Rotated;
    var held := |Kept(segs, tail, keep)|;
    RotatedSlots(files, keep, held + 1);
    forall s | s in Rotated(files, keep).shards ensures 1 <= s <= b.mostKeep && (s > keep ==> s > keep + PRUNED_PAST_KEEP) {
      RotatedSlots(files, keep, s);
    }
  }

  lemma RotationKeepsDisk(json: JsonText, b: Bounds, policy: Policy, files: Files, history: seq<Frame>, l: Layout, shape: Shape)
    requires Sound(json) && BoundsOk(b) && PolicyOk(b, policy)
    requires DiskOk(json, b, files, history, l, shape) && AtRest(shape)
    requires |TextOf(json, l.tail)| + 2 * b.longest > b.leastMax
    ensures DiskOk(json, b, Rotated(files, policy.keep), history, RotatedLayout(l, policy.keep), Absent)
  {
    hide Sound, Loggable, Consecutive, ShardsFit, SlotsOk, TextOf, Flat, Rotated;
    NoText(json);
    RotatedHistory(l, policy.keep);
    RotatedShards(json, files, l.segs, l.tail, policy.keep);
    RotatedBounds(b, files, l.segs, l.tail, policy.keep);
    var kept := Kept(l.segs, l.tail, policy.keep);
    assert forall i :: 0 <= i < |kept| ==> kept[i] in l.segs + [l.tail];
    PrunedOnlyWhenFull(l, policy.keep);
    assert Rotated(files, policy.keep).live.None? by { RotatedHasNoLive(files, policy.keep); }
  }

  lemma RotatedHasNoLive(files: Files, keep: nat)
    ensures Rotated(files, keep).live.None?
  {
  }

  lemma PrunedOnlyWhenFull(l: Layout, keep: nat)
    ensures RotatedLayout(l, keep).dropped != [] ==> l.dropped != [] || |Kept(l.segs, l.tail, keep)| == keep
    ensures |Kept(l.segs, l.tail, keep)| >= |l.segs| || |Kept(l.segs, l.tail, keep)| == keep
  {
  }

  // ---- What the memory holds ----------------------------------------------------------

  // The memory is a suffix of the history that reaches its end, and reaches back
  // at least as far as the shards a reload would read.
  ghost predicate MemoryOk(json: JsonText, b: Bounds, running: Running, history: seq<Frame>, l: Layout, base: nat) {
    var m := running.mem;
    && PolicyOk(b, running.policy)
    && base <= |history| && m.frames == history[base..] && m.high == |history| && m.tracked == TrackAll(m.frames)
    && AllLogged(l.tail) && |TextOf(json, l.tail)| <= m.liveBytes <= |TextOf(json, l.tail)| + b.longest
    && base <= Unread(l, running.policy.keep)
  }

  // How many shards a reload reads, and the history before them.
  function ReadSlots(l: Layout, keep: nat): nat {
    if |l.segs| <= keep then |l.segs| else keep
  }

  function Unread(l: Layout, keep: nat): nat {
    |l.dropped| + |Flat(l.segs[..|l.segs| - ReadSlots(l, keep)])|
  }

  lemma {:induction false} FlatPrefix(segs: seq<seq<Frame>>, i: nat, j: nat)
    requires i <= j <= |segs|
    ensures |Flat(segs[..i])| <= |Flat(segs[..j])|
  {
    FlatAppend(segs[..i], segs[i..j]);
    assert segs[..j] == segs[..i] + segs[i..j];
  }

  lemma RotationUnreads(l: Layout, keep: nat)
    requires keep > 0
    ensures Unread(l, keep) <= Unread(RotatedLayout(l, keep), keep)
  {
    var r := RotatedLayout(l, keep);
    assert r.segs[..|r.segs| - ReadSlots(r, keep)] == [];
    var all := l.segs + [l.tail];
    if |all| > keep {
      FlatPrefix(all, |l.segs| - ReadSlots(l, keep), |all| - keep);
      assert all[..|l.segs| - ReadSlots(l, keep)] == l.segs[..|l.segs| - ReadSlots(l, keep)];
    } else {
      assert l.segs[..|l.segs| - ReadSlots(l, keep)] == [];
    }
  }

  // The directory an append writes to, whichever way the size check went.
  lemma PlacementKeeps(json: JsonText, b: Bounds, running: Running, files: Files, history: seq<Frame>,
                       l: Layout, shape: Shape, base: nat, incoming: nat) returns (placedLayout: Layout, placedShape: Shape)
    requires Sound(json) && BoundsOk(b) && incoming <= b.longest
    requires DiskOk(json, b, files, history, l, shape) && AtRest(shape) && MemoryOk(json, b, running, history, l, base)
    ensures var (placed, size) := Placed(running.policy, running.mem.liveBytes, files, incoming);
            && DiskOk(json, b, placed, history, placedLayout, placedShape) && AtRest(placedShape)
            && |TextOf(json, placedLayout.tail)| <= size <= |TextOf(json, placedLayout.tail)| + b.longest
            && base <= Unread(placedLayout, running.policy.keep)
  {
    hide DiskOk, TextOf, Unread, Rotated;
    placedLayout, placedShape := l, shape;
    if MustRotate(running.policy, running.mem.liveBytes, incoming) {
      RotationKeepsDisk(json, b, running.policy, files, history, l, shape);
      RotationUnreads(l, running.policy.keep);
      NoText(json);
      placedLayout, placedShape := RotatedLayout(l, running.policy.keep), Absent;
    }
  }

  // ---- What a reload reads --------------------------------------------------------------

  lemma NewestShardsFit(json: JsonText, shards: map<nat, string>, segs: seq<seq<Frame>>, k: nat)
    requires ShardsFit(json, shards, segs) && k <= |segs|
    ensures ShardsFit(json, shards, segs[|segs| - k..])
  {
    var newest := segs[|segs| - k..];
    forall i: nat | 1 <= i <= |newest|
      ensures i in shards && AllLogged(newest[|newest| - i]) && shards[i] == TextOf(json, newest[|newest| - i])
    {
      assert newest[|newest| - i] == segs[|segs| - i];
    }
  }

  lemma SlotsAreReadSlots(json: JsonText, b: Bounds, shards: map<nat, string>, l: Layout, keep: nat)
    requires ShardsFit(json, shards, l.segs) && SlotsOk(b, shards, |l.segs|)
    ensures SlotsHeld(shards, keep) == ReadSlots(l, keep)
  {
    SlotsFromUnique(shards, 1, keep, ReadSlots(l, keep));
  }

  lemma UnreadSplits(l: Layout, keep: nat)
    ensures var k := ReadSlots(l, keep);
            var before := l.dropped + Flat(l.segs[..|l.segs| - k]);
            && |before| == Unread(l, keep)
            && l.dropped + (Flat(l.segs) + l.tail) == before + (Flat(l.segs[|l.segs| - k..]) + l.tail)
  {
    var k := ReadSlots(l, keep);
    var older, newest := l.segs[..|l.segs| - k], l.segs[|l.segs| - k..];
    assert l.segs == older + newest;
    FlatAppend(older, newest);
    hide Flat;
    assert l.dropped + (Flat(older) + Flat(newest) + l.tail) == l.dropped + Flat(older) + (Flat(newest) + l.tail);
  }

  lemma ReadSegmentsFound(json: JsonText, b: Bounds, l: Layout, keep: nat)
    requires BoundsOk(b) && RetentionOk(b, l) && FullEnough(json, b, l.segs) && keep > 0
    ensures var newest := l.segs[|l.segs| - ReadSlots(l, keep)..];
            && Founded(newest, l.tail, Unread(l, keep) + 1)
            && (Flat(newest) + l.tail == [] ==> Unread(l, keep) == 0)
  {
    var newest := l.segs[|l.segs| - ReadSlots(l, keep)..];
    if |newest| > 0 {
      assert newest[0] == l.segs[|l.segs| - ReadSlots(l, keep)];
      assert |Flat(newest) + l.tail| >= |newest[0]|;
    } else {
      assert l.segs[..|l.segs|] == [];
    }
  }

  lemma ReloadReads(json: JsonText, b: Bounds, files: Files, history: seq<Frame>, l: Layout, shape: Shape, keep: nat)
    requires Sound(json) && BoundsOk(b) && keep > 0 && DiskOk(json, b, files, history, l, shape)
    ensures Unread(l, keep) <= |history| && (|history| > 0 ==> Unread(l, keep) < |history|)
    ensures Reading(json, keep, files)
         == (Ok(Mem(history[Unread(l, keep)..], |history|, TrackAll(history[Unread(l, keep)..]),
                    |TextOf(json, l.tail)| + TornSize(shape))),
             Files(Mended(json, files.live, l.tail), files.shards))
  {
    hide Sound, Loggable, Consecutive, TextOf, ShardsFit, FullEnough, SlotsOk, LiveFits, Torn, TrackFrom, Reading, Flat, Unread,
         Founded, Mended;
    var k, unread := ReadSlots(l, keep), Unread(l, keep);
    var newest := l.segs[|l.segs| - k..];
    NewestShardsFit(json, files.shards, l.segs, k);
    SlotsAreReadSlots(json, b, files.shards, l, keep);
    ReadSegmentsFound(json, b, l, keep);
    UnreadSplits(l, keep);
    NewestHistory(history, l, keep);
    ReadsDirectory(json, keep, files, newest, l.tail, unread + 1, shape);
  }

  lemma NewestHistory(history: seq<Frame>, l: Layout, keep: nat)
    requires Consecutive(history, 1) && history == l.dropped + (Flat(l.segs) + l.tail)
    ensures var after := Flat(l.segs[|l.segs| - ReadSlots(l, keep)..]) + l.tail;
            Unread(l, keep) <= |history| && history[Unread(l, keep)..] == after && Consecutive(after, Unread(l, keep) + 1)
  {
    UnreadSplits(l, keep);
    hide Flat, Consecutive;
    var before := l.dropped + Flat(l.segs[..|l.segs| - ReadSlots(l, keep)]);
    ConsecutiveParts(before, history[Unread(l, keep)..], 1);
  }

  // ---- Every step ----------------------------------------------------------------------

  ghost predicate Explains(json: JsonText, b: Bounds, w: World, l: Layout, shape: Shape, base: nat) {
    && DiskOk(json, b, w.files, w.history, l, shape)
    && (w.log.Some? ==> AtRest(shape) && MemoryOk(json, b, w.log.value, w.history, l, base))
  }

  ghost predicate WorldOk(json: JsonText, b: Bounds, w: World) {
    exists l, shape, base :: Explains(json, b, w, l, shape, base)
  }

  lemma AcceptedIsLoggable(u: Unsequenced, n: nat)
    requires Accepted(u, n) && n <= MAX_SAFE_INTEGER
    ensures Loggable(WithSeq(u, n))
  {
    hide FrameOf, ObjectOf;
    AcceptedFramesReadBack(u, n);
  }

  lemma MemoryGrows(m: Mem, history: seq<Frame>, base: nat, f: Frame)
    requires base <= |history| && m.frames == history[base..] && m.tracked == TrackAll(m.frames)
    ensures m.frames + [f] == (history + [f])[base..]
    ensures Track(m.tracked, f) == TrackAll(m.frames + [f])
  {
    assert (m.frames + [f])[..|m.frames|] == m.frames;
  }

  lemma AppendKeepsWorld(json: JsonText, b: Bounds, w: World, u: Unsequenced, l: Layout, shape: Shape, base: nat)
    requires Sound(json) && BoundsOk(b) && Enabled(json, b, w, Append(u)) && Explains(json, b, w, l, shape, base)
    ensures WorldOk(json, b, Apply(json, b, w, Append(u)))
  {
    if Accepted(u, w.log.value.mem.high + 1) {
      AcceptedKeepsWorld(json, b, w, u, l, shape, base);
    } else {
      hide DiskOk, MemoryOk, Placed, Accepted;
      assert Explains(json, b, Apply(json, b, w, Append(u)), l, shape, base);
    }
  }

  lemma AcceptedKeepsWorld(json: JsonText, b: Bounds, w: World, u: Unsequenced, l: Layout, shape: Shape, base: nat)
    requires Sound(json) && BoundsOk(b) && Enabled(json, b, w, Append(u)) && Explains(json, b, w, l, shape, base)
    requires Accepted(u, w.log.value.mem.high + 1)
    ensures WorldOk(json, b, Apply(json, b, w, Append(u)))
  {
    hide DiskOk, MemoryOk, TextOf, Unread, Rotated, TrackAll, Track, Placed, Accepted, Line, WithSeq;
    var running := w.log.value;
    SeqOfNext(json, b, running, w.history, l, base, u);
    var m, n := running.mem, running.mem.high + 1;
    var after := Apply(json, b, w, Append(u));
    var f := WithSeq(u, n);
    var text := LineText(json, f);
    AcceptedIsLoggable(u, n);
    var p, pshape := PlacementKeeps(json, b, running, w.files, w.history, l, shape, base, |text|);
    WritesWhole(json, b, Placed(running.policy, m.liveBytes, w.files, |text|).0, w.history, p, pshape, f);
    TailIsLogged(json, b, w, p, pshape, running, |text|);
    var size := Placed(running.policy, m.liveBytes, w.files, |text|).1;
    MemoryAppends(json, b, running, w.history, l, p, base, f, size);
    assert Explains(json, b, after, p.(tail := p.tail + [f]), Whole, base);
  }

  // The memory after a frame is tracked and its line, written to a live file of
  // believed size `size`, is counted.
  lemma MemoryAppends(json: JsonText, b: Bounds, running: Running, history: seq<Frame>, l: Layout, p: Layout, base: nat, f: Frame, size: nat)
    requires MemoryOk(json, b, running, history, l, base) && AllLogged(p.tail) && LoggedKind(f)
    requires |TextOf(json, p.tail)| <= size <= |TextOf(json, p.tail)| + b.longest
    requires base <= Unread(p, running.policy.keep)
    ensures var m := running.mem;
            MemoryOk(json, b, Running(running.policy, Mem(m.frames + [f], m.high + 1, Track(m.tracked, f), size + |LineText(json, f)|)),
                     history + [f], p.(tail := p.tail + [f]), base)
  {
    hide TextOf, Unread, TrackAll, Track, Line;
    MemoryGrows(running.mem, history, base, f);
    TextAppend(json, p.tail, [f]);
    TextOne(json, f);
    UnreadIgnoresTail(p, p.tail + [f], running.policy.keep);
  }

  lemma TailIsLogged(json: JsonText, b: Bounds, w: World, p: Layout, shape: Shape, running: Running, incoming: nat)
    requires DiskOk(json, b, Placed(running.policy, running.mem.liveBytes, w.files, incoming).0, w.history, p, shape)
    ensures AllLogged(p.tail)
  {
  }

  lemma UnreadIgnoresTail(l: Layout, tail: seq<Frame>, keep: nat)
    ensures Unread(l.(tail := tail), keep) == Unread(l, keep)
  {
  }

  lemma CrashKeepsWorld(json: JsonText, b: Bounds, w: World, u: Unsequenced, n: nat, created: bool,
                        l: Layout, shape: Shape, base: nat)
    requires Sound(json) && BoundsOk(b) && Enabled(json, b, w, Crash(u, n, created)) && Explains(json, b, w, l, shape, base)
    ensures WorldOk(json, b, Apply(json, b, w, Crash(u, n, created)))
  {
    hide DiskOk, MemoryOk, Placed, Accepted, Line, Written, WithSeq, Fits;
    var running := w.log.value;
    CrashFits(json, b, w, u, n, created);
    var f := WithSeq(u, running.mem.high + 1);
    var after := Apply(json, b, w, Crash(u, n, created));
    AcceptedIsLoggable(u, running.mem.high + 1);
    var incoming := |LineText(json, f)|;
    var p, pshape := PlacementKeeps(json, b, running, w.files, w.history, l, shape, base, incoming);
    var placed := Placed(running.policy, running.mem.liveBytes, w.files, incoming).0;
    SeqOfNext(json, b, running, w.history, l, base, u);
    var left, lshape := WritesPart(json, b, placed, w.history, p, pshape, f, n, created);
    assert Explains(json, b, after, left, lshape, 0);
  }

  lemma CrashFits(json: JsonText, b: Bounds, w: World, u: Unsequenced, n: nat, created: bool)
    requires Enabled(json, b, w, Crash(u, n, created))
    ensures |LineText(json, WithSeq(u, w.log.value.mem.high + 1))| <= b.longest && w.log.value.mem.high < MAX_SAFE_INTEGER
  {
    hide Accepted, LineText, WithSeq;
  }

  lemma SeqOfNext(json: JsonText, b: Bounds, running: Running, history: seq<Frame>, l: Layout, base: nat, u: Unsequenced)
    requires MemoryOk(json, b, running, history, l, base)
    ensures LoggedFrameSeq(WithSeq(u, running.mem.high + 1)) == |history| + 1
  {
  }

  // However much of a line was written, the directory still holds the history.
  lemma WritesPart(json: JsonText, b: Bounds, files: Files, history: seq<Frame>, l: Layout, shape: Shape,
                   f: Frame, n: nat, created: bool) returns (left: Layout, leftShape: Shape)
    requires Sound(json) && DiskOk(json, b, files, history, l, shape) && AtRest(shape)
    requires Loggable(f) && LoggedFrameSeq(f) == |history| + 1
    requires n <= |LineText(json, f)| <= b.longest
    ensures DiskOk(json, b, if n == 0 && !created then files else Written(files, LineText(json, f)[..n]),
                   if n >= |Line(json, f)| then history + [f] else history, left, leftShape)
  {
    hide DiskOk, Loggable, Line, Written;
    LoggableIsLogged(f);
    LinesReadBack(json, f);
    var text := LineText(json, f);
    if n == 0 {
      left := l;
      leftShape := CreatesNothing(json, b, files, history, l, shape, f, created);
      assert text[..0] == "";
    } else if n < |Line(json, f)| {
      WritesTorn(json, b, files, history, l, shape, f, n);
      left, leftShape := l, TornBy(text[..n]);
    } else if n == |Line(json, f)| {
      WritesUnterminated(json, b, files, history, l, shape, f);
      assert text[..n] == Line(json, f);
      left, leftShape := l.(tail := l.tail + [f]), Unterminated;
    } else {
      WritesWhole(json, b, files, history, l, shape, f);
      assert text[..n] == text;
      left, leftShape := l.(tail := l.tail + [f]), Whole;
    }
  }

  // A write of nothing leaves the file as it was, or empty where there was none.
  lemma CreatesNothing(json: JsonText, b: Bounds, files: Files, history: seq<Frame>, l: Layout, shape: Shape, f: Frame, created: bool)
    returns (left: Shape)
    requires DiskOk(json, b, files, history, l, shape) && AtRest(shape)
    ensures DiskOk(json, b, if created then Written(files, "") else files, history, l, left)
  {
    hide Consecutive, ShardsFit, FullEnough, SlotsOk, TextOf, Flat;
    left := if created then Whole else shape;
    NoText(json);
    assert TextOf(json, l.tail) + "" == TextOf(json, l.tail);
  }

  lemma BootKeepsWorld(json: JsonText, b: Bounds, w: World, policy: Policy, l: Layout, shape: Shape, base: nat)
    requires Sound(json) && BoundsOk(b) && Enabled(json, b, w, Boot(policy)) && Explains(json, b, w, l, shape, base)
    ensures WorldOk(json, b, Apply(json, b, w, Boot(policy))) && Apply(json, b, w, Boot(policy)).log.Some?
  {
    hide DiskOk, TextOf, Unread, TrackAll, Reading, Mended;
    ReloadReads(json, b, w.files, w.history, l, shape, policy.keep);
    MendingKeepsDisk(json, b, w.files, w.history, l, shape);
    var after := Apply(json, b, w, Boot(policy));
    assert Explains(json, b, after, l, if w.files.live.None? then Absent else Whole, Unread(l, policy.keep));
  }

  lemma MendingKeepsDisk(json: JsonText, b: Bounds, files: Files, history: seq<Frame>, l: Layout, shape: Shape)
    requires DiskOk(json, b, files, history, l, shape)
    ensures AllLogged(l.tail) && TornSize(shape) <= b.longest
    ensures DiskOk(json, b, Files(Mended(json, files.live, l.tail), files.shards), history, l,
                   if files.live.None? then Absent else Whole)
  {
    hide Consecutive, ShardsFit, FullEnough, SlotsOk, TextOf, Flat, Torn;
  }

  lemma StepKeepsWorld(json: JsonText, b: Bounds, w: World, step: Step)
    requires Sound(json) && BoundsOk(b) && Enabled(json, b, w, step) && WorldOk(json, b, w)
    ensures WorldOk(json, b, Apply(json, b, w, step))
  {
    hide DiskOk, MemoryOk;
    var l, shape, base :| Explains(json, b, w, l, shape, base);
    match step
    case Boot(policy) => BootKeepsWorld(json, b, w, policy, l, shape, base);
    case Append(u) => AppendKeepsWorld(json, b, w, u, l, shape, base);
    case Crash(u, n, created) => CrashKeepsWorld(json, b, w, u, n, created, l, shape, base);
    case Stop => assert Explains(json, b, w.(log := None), l, shape, base);
  }

  lemma {:induction false} EveryRunIsOk(json: JsonText, b: Bounds, steps: seq<Step>)
    requires Sound(json) && BoundsOk(b) && Legal(json, b, steps)
    ensures WorldOk(json, b, After(json, b, steps))
  {
    if |steps| == 0 {
      assert [] + (Flat([]) + []) == [];
      assert Explains(json, b, START, Layout([], [], []), Absent, 0);
    } else {
      EveryRunIsOk(json, b, steps[..|steps| - 1]);
      StepKeepsWorld(json, b, After(json, b, steps[..|steps| - 1]), steps[|steps| - 1]);
    }
  }
}
