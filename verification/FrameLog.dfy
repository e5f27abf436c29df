// The chat frame log as its class keeps it (src/chat/frame-log.ts): a directory
// of one live file and numbered shards, and the log that reads and appends it.
module FrameLog {
  import opened Outcomes
  import opened ChatFrames
  import opened FrameText
  import opened FrameHistory
  import opened FrameAppending
  import opened FrameSizes
  import opened FrameTheorems

  datatype LoadError = Damaged(where: Corrupt) | Unclosed

  class Directory {
    var live: Option<string>
    var shards: map<nat, string>

    constructor ()
      ensures live.None? && shards == map[]
    {
      live, shards := None, map[];
    }

    function Contents(): Files
      reads this
    {
      Files(live, shards)
    }

    // A rename or removal of a shard that is not there is left at that.
    method Remove(slot: nat)
      modifies this`shards
      ensures forall s: nat :: ShardAt(shards, s) == if s == slot then None else ShardAt(old(shards), s)
    {
      shards := shards - {slot};
    }

    method Shift(slot: nat)
      modifies this`shards
      ensures forall s: nat :: ShardAt(shards, s) ==
                if ShardAt(old(shards), slot).None? then ShardAt(old(shards), s)
                else if s == slot then None
                else if s == slot + 1 then ShardAt(old(shards), slot)
                else ShardAt(old(shards), s)
    {
      if slot in shards {
        shards := shards[slot + 1 := shards[slot]] - {slot};
      }
    }

    method RetireLive()
      modifies this
      ensures live.None?
      ensures forall s: nat :: ShardAt(shards, s) == if old(live).Some? && s == 1 then old(live) else ShardAt(old(shards), s)
    {
      if live.Some? {
        shards := shards[1 := live.value];
        live := None;
      }
    }
  }

  class ChatFrameLog {
    const json: JsonText
    const dir: Directory
    const rotation: Policy
    var frames: seq<Frame>
    var high: nat
    var seenUserIds: map<(nat, string), nat>
    var legacySeenUserIds: map<string, nat>
    var openTools: seq<string>
    var turnOpen: bool
    var liveBytes: nat

    constructor (json: JsonText, dir: Directory, rotation: Policy)
      ensures this.json == json && this.dir == dir && this.rotation == rotation
      ensures Memory() == EMPTY
    {
      this.json, this.dir, this.rotation := json, dir, rotation;
      frames, high, liveBytes := [], 0, 0;
      seenUserIds, legacySeenUserIds, openTools, turnOpen := map[], map[], [], false;
    }

    function TrackedState(): Tracked
      reads this
    {
      Tracked(seenUserIds, legacySeenUserIds, openTools, turnOpen)
    }

    function Memory(): Mem
      reads this
    {
      Mem(frames, high, TrackedState(), liveBytes)
    }

    method CloseTool(name: string)
      modifies this`openTools
      ensures openTools == WithoutLast(old(openTools), name)
    {
      hide LastIndexOf;
      var i := LastIndexOf(openTools, name);
      if i >= 0 {
        openTools := openTools[..i] + openTools[i + 1..];
      }
    }

    method TrackFrame(f: Frame)
      modifies this`seenUserIds, this`legacySeenUserIds, this`openTools, this`turnOpen
      ensures TrackedState() == Track(old(TrackedState()), f)
    {
      hide WithoutLast;
      match f
      case User(_, id, epoch, _, n) =>
        if epoch.Some? {
          seenUserIds := seenUserIds[(epoch.value, id) := n];
        } else {
          legacySeenUserIds := legacySeenUserIds[id := n];
        }
      case Tool(name, edge, _) =>
        if edge.Start? {
          openTools := openTools + [name];
        } else {
          CloseTool(name);
        }
      case Turn(edge, _) => turnOpen := edge.Start?;
      case _ =>
    }

    // ---- Loading ---------------------------------------------------------------

    method TakeLine(raw: string, oldest: bool) returns (problem: Option<Problem>)
      modifies this
      ensures ReadLine(json, old(Memory()), raw, oldest)
           == if problem.None? then Ok(Memory()) else Err(problem.value)
    {
      hide ParseServerFrame, Track;
      var value := json.parse(raw);
      if value.None? {
        return Some(Unparseable);
      }
      var frame := ParseServerFrame(json, value.value);
      if frame.None? || !LoggedKind(frame.value) {
        return Some(NotLogged);
      }
      if Fatal(frame.value) {
        return Some(FatalPersisted);
      }
      var n := LoggedFrameSeq(frame.value);
      if !(|frames| == 0 && oldest) && n != high + 1 {
        return Some(Gap(high + 1, n));
      }
      high := n;
      TrackFrame(frame.value);
      frames := frames + [frame.value];
      problem := None;
    }

    // The lines of one file, up to a torn final one.
    method TakeLines(lines: seq<string>, file: nat, oldest: bool) returns (problem: Option<Corrupt>)
      modifies this
      ensures ReadLines(json, old(Memory()), lines, file, oldest)
           == if problem.None? then Ok(Memory()) else Err(problem.value)
    {
      hide ReadLine;
      for i := 0 to |lines|
        invariant ReadLines(json, old(Memory()), lines[..i], file, oldest) == Ok(Memory())
      {
        assert lines[..i + 1][..i] == lines[..i];
        var refused := TakeLine(lines[i], oldest);
        if refused.Some? {
          ReadLinesStops(json, old(Memory()), lines, i + 1, file, oldest);
          return Some(Corrupt(file, i + 1, refused.value));
        }
      }
      assert lines[..|lines|] == lines;
      problem := None;
    }

    // One file: terminate a final frame that misses its newline, drop a torn one.
    // `repaired` is what the file is left holding.
    method LoadFile(text: string, file: nat, oldest: bool) returns (problem: Option<Corrupt>, repaired: string)
      modifies this
      ensures var load := ReadText(json, old(Memory()), text, file, oldest);
              repaired == load.text && load.outcome == if problem.None? then Ok(Memory()) else Err(problem.value)
    {
      hide ParseServerFrame, ReadLines, Lines, Unlines, Tail;
      repaired := text;
      if |text| > 0 && !EndsLine(text) {
        var tail := json.parse(Tail(text));
        if tail.Some? {
          var frame := ParseServerFrame(json, tail.value);
          if frame.Some? && !frame.value.AuthOk? && !Fatal(frame.value) {
            repaired := text + "\n";
          }
        }
      }
      assert repaired == Terminated(json, text);
      liveBytes := |repaired|;
      var lines := Lines(repaired);
      if |lines| > 0 && json.parse(lines[|lines| - 1]).None? {
        problem := TakeLines(lines[..|lines| - 1], file, oldest);
        if problem.None? {
          repaired := Unlines(lines[..|lines| - 1]);
        }
      } else {
        problem := TakeLines(lines, file, oldest);
      }
    }

    // ---- Appending ----------------------------------------------------------------

    method RotateIfNeeded(incoming: nat)
      modifies this`liveBytes, dir
      ensures (dir.Contents(), liveBytes) == Placed(rotation, old(liveBytes), old(dir.Contents()), incoming)
      ensures old(liveBytes) + incoming <= rotation.maxBytes ==> dir.Contents() == old(dir.Contents()) && liveBytes == old(liveBytes)
      ensures old(liveBytes) + incoming > rotation.maxBytes ==>
                dir.live.None? && liveBytes == 0 && ShiftedUp(old(dir.Contents()), dir.shards, rotation.keep)
    {
      if liveBytes + incoming <= rotation.maxBytes {
        return;
      }
      var keep := rotation.keep;
      ghost var before := dir.shards;
      for slot := keep to keep + PRUNED_PAST_KEEP + 1
        invariant dir.live == old(dir.live)
        invariant forall s: nat :: ShardAt(dir.shards, s) == if keep <= s < slot then None else ShardAt(before, s)
      {
        dir.Remove(slot);
      }
      ghost var pruned := dir.shards;
      var slot: int := keep - 1;
      while slot >= 1
        invariant (slot >= 0 || keep == 0) && slot < keep && dir.live == old(dir.live)
        invariant forall s: nat :: ShardAt(dir.shards, s) == ShiftedAt(pruned, slot, keep, s)
      {
        // The slot above was pruned or has just moved up: nothing is overwritten.
        assert ShardAt(dir.shards, slot + 1).None?;
        dir.Shift(slot);
        slot := slot - 1;
      }
      ghost var shifted := dir.shards;
      dir.RetireLive();
      forall s: nat ensures ShardAt(dir.shards, s) == ShardAt(Rotated(old(dir.Contents()), keep).shards, s) {
        RotatedSlots(old(dir.Contents()), keep, s);
        assert ShardAt(shifted, s) == ShiftedAt(pruned, slot, keep, s);
      }
      SameShards(dir.shards, Rotated(old(dir.Contents()), keep).shards);
      RotationShiftsUp(old(dir.Contents()), keep);
      liveBytes := 0;
    }

    method AppendFrame(u: Unsequenced) returns (r: Result<Frame, AppendError>)
      modifies this, dir
      ensures var appended := Appending(json, rotation, old(Memory()), old(dir.Contents()), u);
              r == appended.outcome && Memory() == appended.mem && dir.Contents() == appended.files
    {
      hide FrameOf, ObjectOf, Track, Placed, Line, WithSeq, ShiftedUp;
      var next := high + 1;
      var f := WithSeq(u, next);
      var check := FrameOf(ObjectOf(f));
      if check.None? || Fatal(check.value) {
        return Err(RefusedFrame);
      }
      var text := LineText(json, f);
      RotateIfNeeded(|text|);
      WriteFrame(f, next, text);
      r := Ok(f);
    }

    // The line reaches the live file before the counter and the history move.
    method WriteFrame(f: Frame, next: nat, text: string)
      modifies this, dir
      ensures dir.Contents() == Written(old(dir.Contents()), text)
      ensures Memory() == Mem(old(frames) + [f], next, Track(old(TrackedState()), f), old(liveBytes) + |text|)
    {
      hide Track;
      dir.live := Some((if dir.live.Some? then dir.live.value else "") + text);
      liveBytes := liveBytes + |text|;
      high := next;
      TrackFrame(f);
      frames := frames + [f];
    }

    // ---- Settling --------------------------------------------------------------------

    // Closes what is open: the newest open tool first, the turn last.
    method SettleOpenTurn() returns (r: Result<seq<Frame>, AppendError>)
      modifies this, dir
      ensures (r, Memory(), dir.Contents())
           == AppendingAll(json, rotation, old(Memory()), old(dir.Contents()), Closing(old(TrackedState())))
    {
      hide Appending, Closing, Track;
      var closing := [];
      ghost var all := AppendingAll(json, rotation, Memory(), dir.Contents(), Closing(TrackedState()));
      NothingResumed(all);
      while |openTools| > 0
        invariant all == Resumed(closing, AppendingAll(json, rotation, Memory(), dir.Contents(), Closing(TrackedState())))
        decreases |openTools|
      {
        ghost var m, files := Memory(), dir.Contents();
        ClosingHead(m.tracked, m.high + 1);
        var closed := AppendFrame(UTool(openTools[|openTools| - 1], End));
        if closed.Err? {
          return Err(closed.error);
        }
        OneMoreDone(json, rotation, m, files, Closing(m.tracked), closing);
        closing := closing + [closed.value];
      }
      if turnOpen {
        ghost var m, files := Memory(), dir.Contents();
        ClosingHead(m.tracked, m.high + 1);
        var closed := AppendFrame(UTurn(End));
        if closed.Err? {
          return Err(closed.error);
        }
        OneMoreDone(json, rotation, m, files, Closing(m.tracked), closing);
        closing := closing + [closed.value];
      }
      NothingToClose(TrackedState());
      assert closing + [] == closing;
      r := Ok(closing);
    }

    // ---- Booting ---------------------------------------------------------------------

    // Opens the log over a directory: shards oldest first, the live file, then
    // whatever closing frames the history is owed.
    static method Load(json: JsonText, dir: Directory, rotation: Policy)
      returns (log: ChatFrameLog, r: Result<seq<Frame>, LoadError>)
      modifies dir
      ensures fresh(log) && log.json == json && log.dir == dir && log.rotation == rotation
      ensures var (read, files) := Reading(json, rotation.keep, old(dir.Contents()));
              if read.Err? then r == Err(Damaged(read.error)) && dir.Contents() == files
              else
                var (closed, mem, after) := AppendingAll(json, rotation, read.value, files, Closing(read.value.tracked));
                && r == (if closed.Ok? then Ok(closed.value) else Err(Unclosed))
                && log.Memory() == mem && dir.Contents() == after
    {
      hide AppendingAll, Closing;
      log := new ChatFrameLog(json, dir, rotation);
      var problem := log.ReadDirectory();
      if problem.Some? {
        return log, Err(Damaged(problem.value));
      }
      var settled := log.SettleOpenTurn();
      r := if settled.Ok? then Ok(settled.value) else Err(Unclosed);
    }

    method ReadDirectory() returns (problem: Option<Corrupt>)
      requires Memory() == EMPTY
      modifies this, dir
      ensures Reading(json, rotation.keep, old(dir.Contents()))
           == (if problem.None? then Ok(Memory()) else Err(problem.value), dir.Contents())
    {
      hide ReadText, SlotsFrom;
      var keep := rotation.keep;
      var slot := 1;
      while slot <= keep && slot in dir.shards
        invariant 1 <= slot <= keep + 1 && HasSlots(dir.shards, slot - 1)
        decreases keep + 1 - slot
      {
        slot := slot + 1;
      }
      var held := slot - 1;
      SlotsFromUnique(dir.shards, 1, keep, held);
      SlotsFromIs(dir.shards, 1, keep);
      ghost var shards := dir.shards;
      while slot > 1
        invariant 1 <= slot <= held + 1 && HasSlots(dir.shards, slot - 1) && dir.live == old(dir.live)
        invariant ReadShards(json, EMPTY, shards, held, held) == ReadShards(json, Memory(), dir.shards, slot - 1, held)
      {
        slot := slot - 1;
        var refused, repaired := LoadFile(dir.shards[slot], slot, slot == held);
        dir.shards := dir.shards[slot := repaired];
        if refused.Some? {
          return refused;
        }
      }
      if dir.live.None? {
        liveBytes := 0;
        return None;
      }
      var refused, repaired := LoadFile(dir.live.value, 0, false);
      dir.live := Some(repaired);
      problem := refused;
    }

    // ---- Reading what is held -----------------------------------------------------------

    method HasSeen(clientMsgId: string, epoch: nat, replayFloorSeq: nat) returns (seen: bool)
      ensures seen == HasSeenUserId(TrackedState(), clientMsgId, epoch, replayFloorSeq)
      ensures forall first: int :: Consecutive(frames, first) && TrackedState() == TrackAll(frames) ==>
                (seen <==> HoldsUser(frames, clientMsgId, epoch, replayFloorSeq))
    {
      seen := (epoch, clientMsgId) in seenUserIds
              || (if clientMsgId in legacySeenUserIds then legacySeenUserIds[clientMsgId] else 0) > replayFloorSeq;
      forall first: int | Consecutive(frames, first) && TrackedState() == TrackAll(frames)
        ensures seen <==> HoldsUser(frames, clientMsgId, epoch, replayFloorSeq)
      {
        HasSeenMeansHeld(frames, first, clientMsgId, epoch, replayFloorSeq);
      }
    }

    method Replay(lastSeenSeq: nat, replayFloorSeq: nat) returns (replay: seq<Frame>)
      ensures replay == ReplayAfter(Memory(), lastSeenSeq, replayFloorSeq)
      ensures forall first: nat :: Consecutive(frames, first) ==>
                var floor := if lastSeenSeq >= replayFloorSeq then lastSeenSeq else replayFloorSeq;
                Already(frames, first, floor) <= |frames| && replay == frames[Already(frames, first, floor)..]
    {
      var floor := if lastSeenSeq >= replayFloorSeq then lastSeenSeq else replayFloorSeq;
      replay := Above(frames, floor);
      forall first: nat | Consecutive(frames, first)
        ensures Already(frames, first, floor) <= |frames| && replay == frames[Already(frames, first, floor)..]
      {
        AboveIsSuffix(frames, first, floor);
      }
    }
  }

  lemma {:induction false} ReadLinesStops(json: JsonText, m: Mem, lines: seq<string>, n: nat, file: nat, oldest: bool)
    requires n <= |lines| && ReadLines(json, m, lines[..n], file, oldest).Err?
    ensures ReadLines(json, m, lines, file, oldest) == ReadLines(json, m, lines[..n], file, oldest)
    decreases |lines|
  {
    if n == |lines| {
      assert lines[..n] == lines;
    } else {
      assert lines[..|lines| - 1][..n] == lines[..n];
      ReadLinesStops(json, m, lines[..|lines| - 1], n, file, oldest);
    }
  }

  // Slots above `slot` have moved up; the one just above it is free.
  function ShiftedAt(pruned: map<nat, string>, slot: int, keep: nat, s: nat): Option<string> {
    if 1 < s <= keep && s > slot + 1 then ShardAt(pruned, s - 1)
    else if 1 <= s && s == slot + 1 then None
    else ShardAt(pruned, s)
  }

  lemma SameShards(a: map<nat, string>, b: map<nat, string>)
    requires forall s: nat :: ShardAt(a, s) == ShardAt(b, s)
    ensures a == b
  {
    forall s | s in a || s in b ensures s in a && s in b && a[s] == b[s] {
      assert ShardAt(a, s) == ShardAt(b, s);
    }
  }

  // The outcome of appends some of which are already done.
  function Resumed(done: seq<Frame>, rest: (Result<seq<Frame>, AppendError>, Mem, Files))
    : (Result<seq<Frame>, AppendError>, Mem, Files)
  {
    (if rest.0.Ok? then Ok(done + rest.0.value) else rest.0, rest.1, rest.2)
  }

  lemma NothingResumed(all: (Result<seq<Frame>, AppendError>, Mem, Files))
    ensures Resumed([], all) == all
  {
    if all.0.Ok? { assert [] + all.0.value == all.0.value; }
  }

  lemma OneMoreDone(json: JsonText, policy: Policy, m: Mem, files: Files, us: seq<Unsequenced>, done: seq<Frame>)
    requires us != [] && Appending(json, policy, m, files, us[0]).outcome.Ok?
    ensures var first := Appending(json, policy, m, files, us[0]);
            && Resumed(done, AppendingAll(json, policy, m, files, us))
               == Resumed(done + [first.outcome.value], AppendingAll(json, policy, first.mem, first.files, us[1..]))
            && first.mem.tracked == Track(m.tracked, WithSeq(us[0], m.high + 1))
  {
    var first := Appending(json, policy, m, files, us[0]);
    AppendingAllIs(json, policy, m, files, us);
    AppendedIsTracked(json, policy, m, files, us[0]);
    hide Appending, AppendingAll, Track, WithSeq;
    var rest := AppendingAll(json, policy, first.mem, first.files, us[1..]).0;
    if rest.Ok? {
      assert done + ([first.outcome.value] + rest.value) == done + [first.outcome.value] + rest.value;
    }
  }

  lemma AppendingAllIs(json: JsonText, policy: Policy, m: Mem, files: Files, us: seq<Unsequenced>)
    requires us != [] && Appending(json, policy, m, files, us[0]).outcome.Ok?
    ensures var first := Appending(json, policy, m, files, us[0]);
            var (rest, mem, after) := AppendingAll(json, policy, first.mem, first.files, us[1..]);
            AppendingAll(json, policy, m, files, us)
            == (if rest.Err? then rest else Ok([first.outcome.value] + rest.value), mem, after)
  {
    hide Appending;
  }

  lemma AppendedIsTracked(json: JsonText, policy: Policy, m: Mem, files: Files, u: Unsequenced)
    requires Appending(json, policy, m, files, u).outcome.Ok?
    ensures Appending(json, policy, m, files, u).mem.tracked == Track(m.tracked, WithSeq(u, m.high + 1))
  {
    hide Accepted, Placed, Track;
  }

  lemma ClosingHead(t: Tracked, n: nat)
    requires !Settled(t)
    ensures Closing(t) != []
    ensures Closing(t)[0] == if |t.openTools| > 0 then UTool(t.openTools[|t.openTools| - 1], End) else UTurn(End)
    ensures Closing(t)[1..] == Closing(CloseOne(t))
    ensures Track(t, WithSeq(Closing(t)[0], n)) == CloseOne(t)
  {
    ClosingTail(t, n);
  }
}
