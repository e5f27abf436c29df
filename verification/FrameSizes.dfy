// How large the files of the chat frame log become (src/chat/frame-log.ts): when
// an append rotates, what that does to every file, and a bound over every run.
module FrameSizes {
  import opened Outcomes
  import opened ChatFrames
  import opened FrameText
  import opened FrameHistory
  import opened FrameReading
  import opened FrameAppending
  import opened FrameRuns

  function LiveText(files: Files): string {
    if files.live.Some? then files.live.value else ""
  }

  // ---- When an append rotates ------------------------------------------------------

  // The live file became shard 1, each shard below `keep` moved up one, and those
  // from `keep` on are gone as far as the prune reaches, 99 slots past `keep`.
  ghost predicate ShiftedUp(before: Files, after: map<nat, string>, keep: nat) {
    && (1 in after <==> before.live.Some?)
    && (before.live.Some? ==> after[1] == before.live.value)
    && (forall s: nat :: 2 <= s <= keep ==>
          (s in after <==> s - 1 in before.shards) && (s in after ==> after[s] == before.shards[s - 1]))
    && (forall s: nat :: s != 1 && keep < s <= keep + 99 ==> s !in after)
    && (forall s: nat :: s != 1 && keep + 99 < s ==>
          (s in after <==> s in before.shards) && (s in after ==> after[s] == before.shards[s]))
  }

  lemma RotationShiftsUp(files: Files, keep: nat)
    ensures Rotated(files, keep).live.None? && ShiftedUp(files, Rotated(files, keep).shards, keep)
  {
    var after := Rotated(files, keep).shards;
    RotatedHasNoLive(files, keep);
    hide Rotated;
    forall s: nat ensures s in after <==> SlotAfter(files, keep, s).Some?
      ensures s in after ==> after[s] == SlotAfter(files, keep, s).value
    {
      RotatedSlots(files, keep, s);
    }
  }

  // An accepted append of a log that believes what is on disk: while the file and
  // the line together fit `maxBytes` the line joins the file, and once they do not
  // the file is rotated out first and the line starts another.
  lemma RotatesExactlyWhenFull(json: JsonText, policy: Policy, m: Mem, files: Files, u: Unsequenced)
    requires Accepted(u, m.high + 1) && m.liveBytes == |LiveText(files)|
    ensures var line := Line(json, WithSeq(u, m.high + 1)) + "\n";
            var after := Appending(json, policy, m, files, u);
            if |LiveText(files)| + |line| <= policy.maxBytes then
              && after.files == Files(Some(LiveText(files) + line), files.shards)
              && after.mem.liveBytes == |LiveText(files)| + |line|
            else
              && after.files.live == Some(line) && after.mem.liveBytes == |line|
              && ShiftedUp(files, after.files.shards, policy.keep)
  {
    hide Accepted, Line, WithSeq, Rotated, Track, ShiftedUp;
    RotationShiftsUp(files, policy.keep);
    var line := Line(json, WithSeq(u, m.high + 1)) + "\n";
    assert "" + line == line;
  }

  // ---- A bound over every run -------------------------------------------------------

  // Every boot of the run has at most this `maxBytes`.
  predicate BootsWithin(steps: seq<Step>, most: nat) {
    forall i :: 0 <= i < |steps| && steps[i].Boot? ==> steps[i].policy.maxBytes <= most
  }

  // The live file, terminated if a boot would terminate it, and every shard.
  ghost predicate Sized(json: JsonText, most: nat, files: Files) {
    && |Terminated(json, LiveText(files))| <= most
    && forall s :: s in files.shards ==> |files.shards[s]| <= most
  }

  ghost predicate SizedWorld(json: JsonText, most: nat, w: World) {
    && Sized(json, most, w.files)
    && (w.log.Some? ==>
          && w.log.value.policy.maxBytes <= most && |LiveText(w.files)| <= w.log.value.mem.liveBytes
          && (LiveText(w.files) == "" || EndsLine(LiveText(w.files))))
  }

  lemma PlacedIsSized(json: JsonText, most: nat, policy: Policy, size: nat, files: Files, incoming: nat)
    requires Sized(json, most, files) && |LiveText(files)| <= size && policy.maxBytes <= most && incoming <= most
    ensures var (placed, after) := Placed(policy, size, files, incoming);
            && |LiveText(placed)| <= after && after + incoming <= most
            && (placed.live.None? || placed.live == files.live)
            && forall s :: s in placed.shards ==> |placed.shards[s]| <= most
  {
    hide Rotated;
    RotatedHasNoLive(files, policy.keep);
    forall s | s in Rotated(files, policy.keep).shards ensures |Rotated(files, policy.keep).shards[s]| <= most {
      RotatedSlots(files, policy.keep, s);
    }
  }

  lemma WholeNeedsNoEnd(json: JsonText, text: string)
    ensures text == "" || EndsLine(text) ==> Terminated(json, text) == text
    ensures |text| <= |Terminated(json, text)| <= |text| + 1
  {
  }

  lemma AppendIsSized(json: JsonText, b: Bounds, most: nat, w: World, u: Unsequenced)
    requires SizedWorld(json, most, w) && Enabled(json, b, w, Append(u)) && b.longest <= most
    ensures SizedWorld(json, most, Apply(json, b, w, Append(u)))
  {
    hide Accepted, LineText, WithSeq, Placed, Terminated, Track;
    var running := w.log.value;
    if Accepted(u, running.mem.high + 1) {
      var text := LineText(json, WithSeq(u, running.mem.high + 1));
      PlacedIsSized(json, most, running.policy, running.mem.liveBytes, w.files, |text|);
      var placed := Placed(running.policy, running.mem.liveBytes, w.files, |text|).0;
      assert EndsLine(LiveText(placed) + text) by { TextEndsLine(json, WithSeq(u, running.mem.high + 1)); }
      WholeNeedsNoEnd(json, LiveText(placed) + text);
    }
  }

  lemma TextEndsLine(json: JsonText, f: Frame)
    requires LoggedKind(f)
    ensures EndsLine(LineText(json, f))
  {
  }

  lemma CrashIsSized(json: JsonText, b: Bounds, most: nat, w: World, u: Unsequenced, n: nat, created: bool)
    requires SizedWorld(json, most, w) && Enabled(json, b, w, Crash(u, n, created)) && b.longest <= most
    ensures SizedWorld(json, most, Apply(json, b, w, Crash(u, n, created)))
  {
    hide Accepted, Line, WithSeq, Placed, Terminated;
    var running := w.log.value;
    var text := LineText(json, WithSeq(u, running.mem.high + 1));
    PlacedIsSized(json, most, running.policy, running.mem.liveBytes, w.files, |text|);
    var placed := Placed(running.policy, running.mem.liveBytes, w.files, |text|).0;
    WholeNeedsNoEnd(json, LiveText(placed));
    assert LiveText(placed) + text[..0] == LiveText(placed);
    assert n == |text| ==> text[..n] == text;
    WholeNeedsNoEnd(json, LiveText(placed) + text[..n]);
  }

  // A boot writes nothing but the newline a final frame misses.
  lemma BootIsSized(json: JsonText, b: Bounds, most: nat, w: World, policy: Policy)
    requires Sound(json) && BoundsOk(b) && WorldOk(json, b, w) && SizedWorld(json, most, w)
    requires Enabled(json, b, w, Boot(policy)) && policy.maxBytes <= most
    ensures SizedWorld(json, most, Apply(json, b, w, Boot(policy)))
  {
    hide DiskOk, TextOf, Unread, TrackAll, Reading, Terminated;
    var l, shape, base :| Explains(json, b, w, l, shape, base);
    ReloadReads(json, b, w.files, w.history, l, shape, policy.keep);
    LiveIsMended(json, b, w.files, w.history, l, shape);
    WholeNeedsNoEnd(json, TextOf(json, l.tail));
    NoText(json);
  }

  lemma LiveIsMended(json: JsonText, b: Bounds, files: Files, history: seq<Frame>, l: Layout, shape: Shape)
    requires Sound(json) && DiskOk(json, b, files, history, l, shape)
    ensures AllLogged(l.tail)
    ensures var text := TextOf(json, l.tail);
            && (text == "" || EndsLine(text)) && |text| <= |Terminated(json, LiveText(files))|
            && (files.live.None? ==> text == "")
  {
    hide Sound, Loggable, TextOf, ShardsFit, FullEnough, SlotsOk, Flat, Repairable, Torn, Consecutive;
    NoText(json);
    TailConsecutive(history, l);
    FrameLines(json, l.tail, |l.dropped| + |Flat(l.segs)| + 1);
    if shape.Unterminated? {
      UnterminatedIsRepairable(json, l.tail, |l.dropped| + |Flat(l.segs)| + 1, files.live.value);
    }
  }

  lemma TailConsecutive(history: seq<Frame>, l: Layout)
    requires Consecutive(history, 1) && history == l.dropped + (Flat(l.segs) + l.tail)
    ensures Consecutive(l.tail, |l.dropped| + |Flat(l.segs)| + 1)
  {
    hide Consecutive;
    assert history == l.dropped + Flat(l.segs) + l.tail;
    ConsecutiveParts(l.dropped + Flat(l.segs), l.tail, 1);
  }

  lemma UnterminatedIsRepairable(json: JsonText, frames: seq<Frame>, first: int, cut: string)
    requires Sound(json) && Consecutive(frames, first) && |frames| > 0
    requires (forall f :: f in frames ==> LoggedKind(f)) && cut + "\n" == TextOf(json, frames)
    ensures Terminated(json, cut) == cut + "\n"
  {
    hide Sound, Loggable, TextOf, Line, Tail;
    CutTail(json, frames, first, cut);
    var last := frames[|frames| - 1];
    LastIsLoggable(frames, first);
    assert Loggable(last);
    LinesReadBack(json, last);
  }

  lemma {:induction false} RunIsSized(json: JsonText, b: Bounds, most: nat, steps: seq<Step>)
    requires Sound(json) && BoundsOk(b) && Legal(json, b, steps) && BootsWithin(steps, most)
    ensures SizedWorld(json, most, After(json, b, steps))
  {
    hide Apply, Enabled, WorldOk, SizedWorld;
    if |steps| == 0 {
      NothingIsSized(json, most);
    } else {
      var last := |steps| - 1;
      RunIsSized(json, b, most, steps[..last]);
      EveryRunIsOk(json, b, steps[..last]);
      StepIsSized(json, b, most, After(json, b, steps[..last]), steps[last]);
    }
  }

  lemma NothingIsSized(json: JsonText, most: nat)
    ensures SizedWorld(json, most, START)
  {
  }

  lemma StepIsSized(json: JsonText, b: Bounds, most: nat, w: World, step: Step)
    requires Sound(json) && BoundsOk(b) && WorldOk(json, b, w) && SizedWorld(json, most, w) && Enabled(json, b, w, step)
    requires step.Boot? ==> step.policy.maxBytes <= most
    ensures SizedWorld(json, most, Apply(json, b, w, step))
  {
    hide Sound, WorldOk, Sized;
    match step
    case Boot(policy) => BootIsSized(json, b, most, w, policy);
    case Append(u) =>
      LongestFits(json, b, most, w);
      AppendIsSized(json, b, most, w, u);
    case Crash(u, n, created) =>
      LongestFits(json, b, most, w);
      CrashIsSized(json, b, most, w, u, n, created);
    case Stop =>
  }

  // Half of what the log booted with fits a line.
  lemma LongestFits(json: JsonText, b: Bounds, most: nat, w: World)
    requires BoundsOk(b) && WorldOk(json, b, w) && SizedWorld(json, most, w) && w.log.Some?
    ensures b.longest <= most
  {
    hide DiskOk, Sized;
    var l, shape, base :| Explains(json, b, w, l, shape, base);
  }

  function BytesUpTo(files: Files, slot: nat): nat {
    if slot == 0 then |LiveText(files)|
    else BytesUpTo(files, slot - 1) + (if slot in files.shards then |files.shards[slot]| else 0)
  }

  lemma {:induction false} FewBytes(files: Files, slot: nat, most: nat)
    requires |LiveText(files)| <= most && forall s :: s in files.shards ==> |files.shards[s]| <= most
    ensures BytesUpTo(files, slot) <= (slot + 1) * most
  {
    if slot > 0 { FewBytes(files, slot - 1, most); }
  }

  // Over every run whose lines fit the bounds, wherever it crashed: no file is
  // ever larger than the largest `maxBytes` the run booted with, no slot past the
  // largest `keep` is in use, and so the directory holds at most one file more
  // than `keep` of that size.
  lemma EveryRunStaysSmall(json: JsonText, b: Bounds, most: nat, steps: seq<Step>)
    requires Sound(json) && BoundsOk(b) && Legal(json, b, steps) && BootsWithin(steps, most)
    ensures var files := After(json, b, steps).files;
            && (files.live.Some? ==> |files.live.value| <= most)
            && (forall s :: s in files.shards ==> 1 <= s <= b.mostKeep && |files.shards[s]| <= most)
            && BytesUpTo(files, b.mostKeep) <= (b.mostKeep + 1) * most
  {
    RunIsSized(json, b, most, steps);
    EveryRunIsOk(json, b, steps);
    hide Legal, After, WorldOk, SizedWorld, Sound, BytesUpTo, BootsWithin;
    SmallWorld(json, b, most, After(json, b, steps));
  }

  lemma SmallWorld(json: JsonText, b: Bounds, most: nat, w: World)
    requires WorldOk(json, b, w) && SizedWorld(json, most, w)
    ensures w.files.live.Some? ==> |w.files.live.value| <= most
    ensures forall s :: s in w.files.shards ==> 1 <= s <= b.mostKeep && |w.files.shards[s]| <= most
    ensures BytesUpTo(w.files, b.mostKeep) <= (b.mostKeep + 1) * most
  {
    SizedIsSmall(json, most, w);
    SlotsAreFew(json, b, w);
    hide WorldOk, SizedWorld, BytesUpTo;
    FewBytes(w.files, b.mostKeep, most);
  }

  lemma SizedIsSmall(json: JsonText, most: nat, w: World)
    requires SizedWorld(json, most, w)
    ensures |LiveText(w.files)| <= most && forall s :: s in w.files.shards ==> |w.files.shards[s]| <= most
  {
    WholeNeedsNoEnd(json, LiveText(w.files));
  }

  lemma SlotsAreFew(json: JsonText, b: Bounds, w: World)
    requires WorldOk(json, b, w)
    ensures forall s :: s in w.files.shards ==> 1 <= s <= b.mostKeep
  {
    hide MemoryOk, Consecutive, Flat, TextOf;
    var l, shape, base :| Explains(json, b, w, l, shape, base);
  }
}
