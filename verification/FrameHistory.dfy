// The in-memory history of the chat frame log and how it is read back from
// disk (src/chat/frame-log.ts): the tracked state, the loading of one file, and
// the loading of shards oldest first followed by the live file.
module FrameHistory {
  import opened Outcomes
  import opened ChatFrames
  import opened FrameText

  // ---- Tracking -----------------------------------------------------------------

  // User ids already seen, stamped with an epoch or legacy, each with its latest
  // seq; open tools in the order they started; whether a turn is open.
  datatype Tracked = Tracked(
    seenUserIds: map<(nat, string), nat>, legacySeenUserIds: map<string, nat>, openTools: seq<string>, turnOpen: bool)

  const NOTHING: Tracked := Tracked(map[], map[], [], false)

  function LastIndexOf(names: seq<string>, name: string): (i: int)
    ensures -1 <= i < |names|
    ensures i >= 0 ==> names[i] == name
    ensures forall j :: i < j < |names| ==> names[j] != name
  {
    if |names| == 0 then -1
    else if names[|names| - 1] == name then |names| - 1
    else LastIndexOf(names[..|names| - 1], name)
  }

  function WithoutLast(names: seq<string>, name: string): seq<string> {
    var i := LastIndexOf(names, name);
    if i < 0 then names else names[..i] + names[i + 1..]
  }

  function Track(t: Tracked, f: Frame): Tracked {
    match f
    case User(_, id, epoch, _, n) =>
      if epoch.Some? then t.(seenUserIds := t.seenUserIds[(epoch.value, id) := n])
      else t.(legacySeenUserIds := t.legacySeenUserIds[id := n])
    case Tool(name, edge, _) =>
      if edge.Start? then t.(openTools := t.openTools + [name])
      else t.(openTools := WithoutLast(t.openTools, name))
    case Turn(edge, _) => t.(turnOpen := edge.Start?)
    case _ => t
  }

  function TrackFrom(t: Tracked, frames: seq<Frame>): Tracked {
    if |frames| == 0 then t else Track(TrackFrom(t, frames[..|frames| - 1]), frames[|frames| - 1])
  }

  function TrackAll(frames: seq<Frame>): Tracked {
    TrackFrom(NOTHING, frames)
  }

  lemma {:induction false} TrackInParts(t: Tracked, a: seq<Frame>, b: seq<Frame>)
    ensures TrackFrom(TrackFrom(t, a), b) == TrackFrom(t, a + b)
  {
    if |b| == 0 {
      assert a + b == a;
    } else {
      TrackInParts(t, a, b[..|b| - 1]);
      assert (a + b)[..|a + b| - 1] == a + b[..|b| - 1];
    }
  }

  // ---- The history in memory ------------------------------------------------------

  // `liveBytes` is the size the log believes the live file has.
  datatype Mem = Mem(frames: seq<Frame>, high: nat, tracked: Tracked, liveBytes: nat)

  const EMPTY: Mem := Mem([], 0, NOTHING, 0)

  ghost predicate Consecutive(frames: seq<Frame>, first: int) {
    forall i :: 0 <= i < |frames| ==> Loggable(frames[i]) && LoggedFrameSeq(frames[i]) == first + i
  }

  // What the memory holds once `frames` have been taken in after it.
  function Holding(m: Mem, frames: seq<Frame>): Mem
    requires forall f :: f in frames ==> LoggedKind(f)
  {
    Mem(m.frames + frames, if |frames| == 0 then m.high else LoggedFrameSeq(frames[|frames| - 1]),
        TrackFrom(m.tracked, frames), m.liveBytes)
  }

  // ---- Reading one line ----------------------------------------------------------------

  datatype Problem = Unparseable | NotLogged | FatalPersisted | Gap(expected: nat, found: nat)

  // The file is a shard's slot, or 0 for the live file.
  datatype Corrupt = Corrupt(file: nat, line: nat, problem: Problem)

  function ReadFrame(json: JsonText, m: Mem, value: Json, oldest: bool): Result<Mem, Problem> {
    var frame := ParseServerFrame(json, value);
    if frame.None? || !LoggedKind(frame.value) then Err(NotLogged)
    else if Fatal(frame.value) then Err(FatalPersisted)
    else
      var n := LoggedFrameSeq(frame.value);
      if !(|m.frames| == 0 && oldest) && n != m.high + 1 then Err(Gap(m.high + 1, n))
      else Ok(Mem(m.frames + [frame.value], n, Track(m.tracked, frame.value), m.liveBytes))
  }

  function ReadLine(json: JsonText, m: Mem, raw: string, oldest: bool): Result<Mem, Problem> {
    var value := json.parse(raw);
    if value.None? then Err(Unparseable) else ReadFrame(json, m, value.value, oldest)
  }

  function ReadLines(json: JsonText, m: Mem, lines: seq<string>, file: nat, oldest: bool): Result<Mem, Corrupt> {
    if |lines| == 0 then Ok(m)
    else
      var before := ReadLines(json, m, lines[..|lines| - 1], file, oldest);
      if before.Err? then before
      else
        var read := ReadLine(json, before.value, lines[|lines| - 1], oldest);
        if read.Err? then Err(Corrupt(file, |lines|, read.error)) else Ok(read.value)
  }

  // ---- Reading one file ------------------------------------------------------------------

  // A final line that is a loggable frame and only misses its newline.
  predicate Repairable(json: JsonText, tail: string) {
    var value := json.parse(tail);
    && value.Some?
    && var frame := ParseServerFrame(json, value.value);
       frame.Some? && !frame.value.AuthOk? && !Fatal(frame.value)
  }

  function Terminated(json: JsonText, text: string): string {
    if text != "" && !EndsLine(text) && Repairable(json, Tail(text)) then text + "\n" else text
  }

  predicate TornTail(json: JsonText, lines: seq<string>) {
    |lines| > 0 && json.parse(lines[|lines| - 1]).None?
  }

  // What loading one file leaves in memory and on disk.
  datatype Load = Load(outcome: Result<Mem, Corrupt>, text: string)

  function ReadText(json: JsonText, m: Mem, text: string, file: nat, oldest: bool): Load {
    var terminated := Terminated(json, text);
    var lines := Lines(terminated);
    var sized := m.(liveBytes := |terminated|);
    if TornTail(json, lines) then
      var kept := lines[..|lines| - 1];
      var outcome := ReadLines(json, sized, kept, file, oldest);
      Load(outcome, if outcome.Ok? then Unlines(kept) else terminated)
    else
      Load(ReadLines(json, sized, lines, file, oldest), terminated)
  }

  // ---- Reading every file --------------------------------------------------------------------

  datatype Files = Files(live: Option<string>, shards: map<nat, string>)

  // Shards held in slots 1, 2, ... without a gap, up to `keep` of them.
  function SlotsFrom(shards: map<nat, string>, slot: nat, keep: nat): nat
    requires slot > 0
    decreases keep + 1 - slot
  {
    if slot > keep || slot !in shards then slot - 1 else SlotsFrom(shards, slot + 1, keep)
  }

  function SlotsHeld(shards: map<nat, string>, keep: nat): nat {
    SlotsFrom(shards, 1, keep)
  }

  predicate HasSlots(shards: map<nat, string>, slots: nat) {
    forall s: nat :: 1 <= s <= slots ==> s in shards
  }

  lemma {:induction false} SlotsFromIs(shards: map<nat, string>, slot: nat, keep: nat)
    requires slot > 0 && HasSlots(shards, slot - 1) && slot <= keep + 1
    ensures var k := SlotsFrom(shards, slot, keep);
            k <= keep && HasSlots(shards, k) && (k < keep ==> k + 1 !in shards)
    decreases keep + 1 - slot
  {
    if slot <= keep && slot in shards {
      SlotsFromIs(shards, slot + 1, keep);
    }
  }

  lemma {:induction false} SlotsFromUnique(shards: map<nat, string>, slot: nat, keep: nat, k: nat)
    requires 0 < slot <= k + 1 && k <= keep && HasSlots(shards, k) && (k < keep ==> k + 1 !in shards)
    ensures SlotsFrom(shards, slot, keep) == k
    decreases keep + 1 - slot
  {
    if slot <= k {
      SlotsFromUnique(shards, slot + 1, keep, k);
    }
  }

  // Slot by slot, from the oldest down to slot 1.
  function ReadShards(json: JsonText, m: Mem, shards: map<nat, string>, slot: nat, oldest: nat)
    : (Result<Mem, Corrupt>, map<nat, string>)
    requires HasSlots(shards, slot)
    decreases slot
  {
    if slot == 0 then (Ok(m), shards)
    else
      var read := ReadText(json, m, shards[slot], slot, slot == oldest);
      var repaired := shards[slot := read.text];
      if read.outcome.Err? then (read.outcome, repaired)
      else ReadShards(json, read.outcome.value, repaired, slot - 1, oldest)
  }

  function ReadLive(json: JsonText, m: Mem, live: Option<string>): (Result<Mem, Corrupt>, Option<string>) {
    if live.None? then (Ok(m.(liveBytes := 0)), None)
    else var read := ReadText(json, m, live.value, 0, false); (read.outcome, Some(read.text))
  }

  // The whole directory under a retention of `keep` shards, before settling.
  function Reading(json: JsonText, keep: nat, files: Files): (Result<Mem, Corrupt>, Files) {
    SlotsFromIs(files.shards, 1, keep);
    var k := SlotsHeld(files.shards, keep);
    var (older, shards) := ReadShards(json, EMPTY, files.shards, k, k);
    if older.Err? then (older, files.(shards := shards))
    else
      var (outcome, live) := ReadLive(json, older.value, files.live);
      (outcome, Files(live, shards))
  }

  // ---- Lines of frames --------------------------------------------------------------------------

  function LinesOf(json: JsonText, frames: seq<Frame>): seq<string>
    requires forall f :: f in frames ==> LoggedKind(f)
  {
    seq(|frames|, i requires 0 <= i < |frames| => Line(json, frames[i]))
  }

  // A file that holds exactly these frames.
  function TextOf(json: JsonText, frames: seq<Frame>): string
    requires forall f :: f in frames ==> LoggedKind(f)
  {
    Unlines(LinesOf(json, frames))
  }

  lemma TextAppend(json: JsonText, a: seq<Frame>, b: seq<Frame>)
    requires forall f :: f in a + b ==> LoggedKind(f)
    ensures (forall f :: f in a ==> LoggedKind(f)) && (forall f :: f in b ==> LoggedKind(f))
    ensures TextOf(json, a + b) == TextOf(json, a) + TextOf(json, b)
  {
    forall f | f in a ensures LoggedKind(f) { assert f in a + b; }
    forall f | f in b ensures LoggedKind(f) { assert f in a + b; }
    UnlinesAppend(LinesOf(json, a), LinesOf(json, b));
    assert LinesOf(json, a + b) == LinesOf(json, a) + LinesOf(json, b);
  }

  lemma TextOne(json: JsonText, f: Frame)
    requires LoggedKind(f)
    ensures TextOf(json, [f]) == Line(json, f) + "\n"
  {
    assert LinesOf(json, [f]) == [Line(json, f)];
    UnlinesOne(Line(json, f));
  }

  lemma FramesAreLogged(frames: seq<Frame>, first: int)
    requires Consecutive(frames, first)
    ensures forall f :: f in frames ==> LoggedKind(f)
  {
  }
}
