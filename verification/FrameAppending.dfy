// What one append does (src/chat/frame-log.ts): the check, the size-based
// rotation, the line written, and the closing frames a boot appends.
module FrameAppending {
  import opened Outcomes
  import opened ChatFrames
  import opened FrameHistory

  datatype Policy = Policy(maxBytes: nat, keep: nat)

  // How many slots past `keep` a rotation prunes.
  const PRUNED_PAST_KEEP: nat := 99

  // ---- Rotation ------------------------------------------------------------------

  // What a slot holds after a rotation: the live file in slot 1, each surviving
  // shard one slot up, nothing at or past `keep` within the pruned range.
  function SlotAfter(files: Files, keep: nat, slot: nat): Option<string> {
    if slot == 1 then files.live
    else if 2 <= slot <= keep then ShardAt(files.shards, slot - 1)
    else if keep <= slot <= keep + PRUNED_PAST_KEEP then None
    else ShardAt(files.shards, slot)
  }

  function ShardAt(shards: map<nat, string>, slot: nat): Option<string> {
    if slot in shards then Some(shards[slot]) else None
  }

  function SlotsTouched(files: Files): set<nat> {
    files.shards.Keys + (set s | s in files.shards.Keys :: s + 1) + {1}
  }

  function Rotated(files: Files, keep: nat): Files {
    Files(None, map s | s in SlotsTouched(files) && SlotAfter(files, keep, s).Some? :: SlotAfter(files, keep, s).value)
  }

  lemma RotatedSlots(files: Files, keep: nat, slot: nat)
    ensures ShardAt(Rotated(files, keep).shards, slot) == SlotAfter(files, keep, slot)
  {
    if 2 <= slot <= keep && slot - 1 in files.shards {
      assert slot - 1 + 1 in (set s | s in files.shards.Keys :: s + 1);
    }
  }

  predicate MustRotate(policy: Policy, liveBytes: nat, incoming: nat) {
    liveBytes + incoming > policy.maxBytes
  }

  // The directory and the believed size an append of this many bytes writes to.
  function Placed(policy: Policy, liveBytes: nat, files: Files, incoming: nat): (Files, nat) {
    if MustRotate(policy, liveBytes, incoming) then (Rotated(files, policy.keep), 0) else (files, liveBytes)
  }

  function Written(files: Files, text: string): Files {
    files.(live := Some((if files.live.Some? then files.live.value else "") + text))
  }

  // ---- One append -------------------------------------------------------------------

  datatype AppendError = RefusedFrame

  datatype Appended = Appended(outcome: Result<Frame, AppendError>, mem: Mem, files: Files)

  function LineText(json: JsonText, f: Frame): string
    requires LoggedKind(f)
  {
    Line(json, f) + "\n"
  }

  function Appending(json: JsonText, policy: Policy, m: Mem, files: Files, u: Unsequenced): Appended {
    var next := m.high + 1;
    var f := WithSeq(u, next);
    if !Accepted(u, next) then Appended(Err(RefusedFrame), m, files)
    else
      var text := LineText(json, f);
      var (placed, size) := Placed(policy, m.liveBytes, files, |text|);
      Appended(Ok(f), Mem(m.frames + [f], next, Track(m.tracked, f), size + |text|), Written(placed, text))
  }

  // Several appends in a row; stops at the first refusal.
  function AppendingAll(json: JsonText, policy: Policy, m: Mem, files: Files, us: seq<Unsequenced>)
    : (Result<seq<Frame>, AppendError>, Mem, Files)
    decreases |us|
  {
    if |us| == 0 then (Ok([]), m, files)
    else
      var first := Appending(json, policy, m, files, us[0]);
      if first.outcome.Err? then (Err(first.outcome.error), first.mem, first.files)
      else
        var (rest, mem, after) := AppendingAll(json, policy, first.mem, first.files, us[1..]);
        (if rest.Err? then rest else Ok([first.outcome.value] + rest.value), mem, after)
  }

  // ---- Settling -----------------------------------------------------------------------

  // Open tools end in reverse order, then the turn.
  function Closing(t: Tracked): seq<Unsequenced>
    decreases |t.openTools|
  {
    if |t.openTools| > 0 then
      var last := |t.openTools| - 1;
      [UTool(t.openTools[last], End)] + Closing(t.(openTools := t.openTools[..last]))
    else if t.turnOpen then [UTurn(End)]
    else []
  }

  predicate Settled(t: Tracked) {
    t.openTools == [] && !t.turnOpen
  }
}
