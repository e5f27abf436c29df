// What the loader makes of files that hold consecutive frames: one file, a torn
// or unterminated file, and a whole directory of shards.
module FrameReading {
  import opened Outcomes
  import opened ChatFrames
  import opened FrameText
  import opened FrameHistory

  // The frames continue the history, or found it when retention pruned the rest.
  ghost predicate Follows(m: Mem, first: int, oldest: bool) {
    first == m.high + 1 || (m.frames == [] && oldest)
  }

  // ---- One file ---------------------------------------------------------------

  lemma ReadsOneFrame(json: JsonText, m: Mem, f: Frame, oldest: bool)
    requires Sound(json) && Loggable(f)
    ensures ReadLine(json, m, Line(json, f), oldest)
         == if Follows(m, LoggedFrameSeq(f), oldest) then Ok(Holding(m, [f])) else Err(Gap(m.high + 1, LoggedFrameSeq(f)))
  {
    LinesReadBack(json, f);
    assert TrackFrom(m.tracked, [f][..0]) == m.tracked;
  }

  lemma HoldingInParts(m: Mem, a: seq<Frame>, b: seq<Frame>)
    requires forall f :: f in a + b ==> LoggedKind(f)
    ensures (forall f :: f in a ==> LoggedKind(f)) && (forall f :: f in b ==> LoggedKind(f))
    ensures Holding(Holding(m, a), b) == Holding(m, a + b)
  {
    forall f | f in a ensures LoggedKind(f) { assert f in a + b; }
    forall f | f in b ensures LoggedKind(f) { assert f in a + b; }
    TrackInParts(m.tracked, a, b);
    assert m.frames + a + b == m.frames + (a + b);
    if |b| == 0 { assert a + b == a; }
  }

  lemma {:induction false} ReadsLines(json: JsonText, m: Mem, frames: seq<Frame>, first: int, file: nat, oldest: bool)
    requires Sound(json) && Consecutive(frames, first)
    ensures var r := ReadLines(json, m, LinesOf(json, frames), file, oldest);
            if |frames| == 0 || Follows(m, first, oldest) then r == Ok(Holding(m, frames)) else r.Err?
  {
    hide ReadLine, Loggable, Line;
    FramesAreLogged(frames, first);
    var lines := LinesOf(json, frames);
    if |frames| == 0 {
      assert m.frames + frames == m.frames;
    } else {
      var init, last := frames[..|frames| - 1], frames[|frames| - 1];
      assert frames == init + [last];
      ReadsLines(json, m, init, first, file, oldest);
      assert lines[..|lines| - 1] == LinesOf(json, init);
      if |init| == 0 || Follows(m, first, oldest) {
        ReadsOneFrame(json, Holding(m, init), last, oldest);
        HoldingInParts(m, init, [last]);
      }
    }
  }

  lemma FrameLines(json: JsonText, frames: seq<Frame>, first: int)
    requires Sound(json) && Consecutive(frames, first)
    ensures OneLineEach(LinesOf(json, frames)) && |LinesOf(json, frames)| == |frames|
    ensures !TornTail(json, LinesOf(json, frames))
    ensures TextOf(json, frames) == "" || EndsLine(TextOf(json, frames))
    ensures TextOf(json, frames) == "" <==> |frames| == 0
  {
    forall i | 0 <= i < |frames| ensures OneLine(LinesOf(json, frames)[i]) && json.parse(LinesOf(json, frames)[i]).Some? {
      LinesReadBack(json, frames[i]);
    }
    UnlinesEnds(LinesOf(json, frames));
  }

  // A whole file is read as it is, if and only if it follows on.
  lemma ReadsText(json: JsonText, m: Mem, frames: seq<Frame>, first: int, file: nat, oldest: bool)
    requires Sound(json) && Consecutive(frames, first)
    ensures var text := TextOf(json, frames);
            var read := ReadText(json, m, text, file, oldest);
            && read.text == text
            && (if |frames| == 0 || Follows(m, first, oldest)
                then read.outcome == Ok(Holding(m.(liveBytes := |text|), frames))
                else read.outcome.Err?)
  {
    hide Follows;
    FrameLines(json, frames, first);
    var text := TextOf(json, frames);
    assert text + "" == text;
    LinesOfText(LinesOf(json, frames), "");
    ReadsLines(json, m.(liveBytes := |text|), frames, first, file, oldest);
    assert Follows(m.(liveBytes := |text|), first, oldest) == Follows(m, first, oldest) by { FollowsIgnoresSize(m, |text|, first, oldest); }
  }

  lemma FollowsIgnoresSize(m: Mem, size: nat, first: int, oldest: bool)
    ensures Follows(m.(liveBytes := size), first, oldest) == Follows(m, first, oldest)
  {
  }

  // A torn tail is dropped from the file and from the history; the believed size
  // still counts it.
  lemma ReadsTorn(json: JsonText, m: Mem, frames: seq<Frame>, first: int, torn: string, file: nat, oldest: bool)
    requires Sound(json) && Consecutive(frames, first) && Torn(json, torn) && torn != ""
    requires |frames| == 0 || Follows(m, first, oldest)
    ensures var text := TextOf(json, frames) + torn;
            ReadText(json, m, text, file, oldest)
            == Load(Ok(Holding(m.(liveBytes := |text|), frames)), TextOf(json, frames))
  {
    hide Sound, Loggable, Follows, ReadLines, Consecutive, Line, Lines, Unlines, Tail, Holding;
    FramesAreLogged(frames, first);
    FrameLines(json, frames, first);
    FollowsIgnoresSize(m, |TextOf(json, frames) + torn|, first, oldest);
    var text := TextOf(json, frames) + torn;
    TailIs(TextOf(json, frames), torn);
    assert text[|text| - 1] == torn[|torn| - 1] && torn[|torn| - 1] in torn;
    LinesOfText(LinesOf(json, frames), torn);
    assert Lines(text)[..|frames|] == LinesOf(json, frames);
    ReadsLines(json, m.(liveBytes := |text|), frames, first, file, oldest);
  }

  // A final frame that only misses its newline is kept and terminated.
  lemma ReadsUnterminated(json: JsonText, m: Mem, frames: seq<Frame>, first: int, cut: string, file: nat, oldest: bool)
    requires Sound(json) && Consecutive(frames, first) && |frames| > 0 && cut + "\n" == TextOf(json, frames)
    requires Follows(m, first, oldest)
    ensures ReadText(json, m, cut, file, oldest)
            == Load(Ok(Holding(m.(liveBytes := |cut| + 1), frames)), cut + "\n")
  {
    hide Follows, Loggable, ReadLines, Sound, Lines, Unlines;
    FramesAreLogged(frames, first);
    CutTail(json, frames, first, cut);
    FrameLines(json, frames, first);
    LinesReadBack(json, frames[|frames| - 1]);
    LinesOfText(LinesOf(json, frames), "");
    assert TextOf(json, frames) + "" == TextOf(json, frames);
    ReadsLines(json, m.(liveBytes := |cut| + 1), frames, first, file, oldest);
    FollowsIgnoresSize(m, |cut| + 1, first, oldest);
    LastIsLoggable(frames, first);
  }

  lemma LastIsLoggable(frames: seq<Frame>, first: int)
    requires Consecutive(frames, first) && |frames| > 0
    ensures LoggedKind(frames[|frames| - 1]) && !Fatal(frames[|frames| - 1])
  {
  }

  lemma CutTail(json: JsonText, frames: seq<Frame>, first: int, cut: string)
    requires Sound(json) && Consecutive(frames, first) && |frames| > 0 && cut + "\n" == TextOf(json, frames)
    ensures cut != "" && !EndsLine(cut) && Tail(cut) == Line(json, frames[|frames| - 1])
  {
    var init, last := frames[..|frames| - 1], frames[|frames| - 1];
    assert frames == init + [last];
    ConsecutiveParts(init, [last], first);
    LinesReadBack(json, [last][0]);
    TextSplit(json, init, last, first, cut);
    var line := Line(json, last);
    assert cut[|cut| - 1] == line[|line| - 1] && line[|line| - 1] in line;
    FrameLines(json, init, first);
    TailIs(TextOf(json, init), line);
  }

  lemma TextSplit(json: JsonText, init: seq<Frame>, last: Frame, first: int, cut: string)
    requires Consecutive(init + [last], first)
    requires (forall f :: f in init + [last] ==> LoggedKind(f)) && cut + "\n" == TextOf(json, init + [last])
    ensures AllLogged(init) && LoggedKind(last) && cut == TextOf(json, init) + Line(json, last)
  {
    hide Consecutive, Loggable, TextOf, Line;
    TextAppend(json, init, [last]);
    assert last in [last];
    TextOne(json, last);
    assert cut == (cut + "\n")[..|cut|];
  }

  // ---- The whole directory -------------------------------------------------------

  function Flat(segs: seq<seq<Frame>>): seq<Frame> {
    if |segs| == 0 then [] else segs[0] + Flat(segs[1..])
  }

  ghost predicate AllLogged(frames: seq<Frame>) {
    forall f :: f in frames ==> LoggedKind(f)
  }

  // Slot |segs| holds the oldest segment and slot 1 the newest.
  ghost predicate ShardsFit(json: JsonText, shards: map<nat, string>, segs: seq<seq<Frame>>) {
    forall i: nat :: 1 <= i <= |segs| ==>
      i in shards && AllLogged(segs[|segs| - i]) && shards[i] == TextOf(json, segs[|segs| - i])
  }

  function Resized(r: Result<Mem, Corrupt>, size: nat): Result<Mem, Corrupt> {
    if r.Ok? then Ok(r.value.(liveBytes := size)) else r
  }

  lemma ConsecutiveParts(a: seq<Frame>, b: seq<Frame>, first: int)
    requires Consecutive(a + b, first)
    ensures Consecutive(a, first) && Consecutive(b, first + |a|)
  {
    forall i | 0 <= i < |a| ensures Loggable(a[i]) && LoggedFrameSeq(a[i]) == first + i {
      assert (a + b)[i] == a[i];
    }
    forall i | 0 <= i < |b| ensures Loggable(b[i]) && LoggedFrameSeq(b[i]) == first + |a| + i {
      assert (a + b)[|a| + i] == b[i];
    }
  }

  lemma HoldingEndsAt(m: Mem, frames: seq<Frame>, first: int)
    requires Consecutive(frames, first)
    ensures AllLogged(frames)
    ensures Holding(m, frames).high == if |frames| == 0 then m.high else first + |frames| - 1
  {
  }

  lemma OlderShardFits(json: JsonText, shards: map<nat, string>, segs: seq<seq<Frame>>)
    requires ShardsFit(json, shards, segs) && |segs| > 0
    ensures |segs| in shards && AllLogged(segs[0]) && shards[|segs|] == TextOf(json, segs[0])
    ensures ShardsFit(json, shards, segs[1..])
    ensures HasSlots(shards, |segs|)
  {
    assert segs[|segs| - |segs|] == segs[0];
    forall i: nat | 1 <= i <= |segs| - 1
      ensures i in shards && AllLogged(segs[1..][|segs| - 1 - i]) && shards[i] == TextOf(json, segs[1..][|segs| - 1 - i])
    {
      assert segs[1..][|segs| - 1 - i] == segs[|segs| - i];
    }
  }

  // A shard that reads as it is leaves the directory alone.
  lemma ReadsOneShard(json: JsonText, m: Mem, shards: map<nat, string>, slot: nat, oldest: nat)
    requires HasSlots(shards, slot) && slot > 0
    requires ReadText(json, m, shards[slot], slot, slot == oldest).text == shards[slot]
    ensures var read := ReadText(json, m, shards[slot], slot, slot == oldest);
            ReadShards(json, m, shards, slot, oldest)
            == if read.outcome.Ok? then ReadShards(json, read.outcome.value, shards, slot - 1, oldest) else (read.outcome, shards)
  {
    hide ReadText;
    assert shards[slot := shards[slot]] == shards;
  }

  // The frames of the segments continue the history, or the oldest founds it.
  ghost predicate SegmentsFollow(m: Mem, segs: seq<seq<Frame>>, first: int, oldest: nat) {
    || Flat(segs) == [] || first == m.high + 1
    || (m.frames == [] && oldest == |segs| && |segs| > 0 && segs[0] != [])
  }

  lemma FollowsTailSegments(m: Mem, segs: seq<seq<Frame>>, first: int, oldest: nat)
    requires |segs| > 0 && Consecutive(segs[0], first) && oldest >= |segs|
    requires |segs[0]| == 0 || Follows(m, first, |segs| == oldest)
    ensures AllLogged(segs[0])
    ensures SegmentsFollow(m, segs, first, oldest)
        <==> SegmentsFollow(Holding(m, segs[0]), segs[1..], first + |segs[0]|, oldest)
  {
    HoldingEndsAt(m, segs[0], first);
    assert m.frames + segs[0] == [] <==> m.frames == [] && segs[0] == [];
  }

  lemma {:induction false} ReadsShards(json: JsonText, m: Mem, shards: map<nat, string>, segs: seq<seq<Frame>>, first: int, oldest: nat)
    requires Sound(json) && ShardsFit(json, shards, segs) && Consecutive(Flat(segs), first) && oldest >= |segs|
    ensures HasSlots(shards, |segs|) && AllLogged(Flat(segs))
    ensures var (r, after) := ReadShards(json, m, shards, |segs|, oldest);
            if SegmentsFollow(m, segs, first, oldest)
            then Resized(r, 0) == Ok(Holding(m, Flat(segs)).(liveBytes := 0)) && after == shards
            else r.Err?
    decreases |segs|
  {
    FramesAreLogged(Flat(segs), first);
    if |segs| == 0 {
      assert m.frames + [] == m.frames;
    } else {
      var head, rest := segs[0], segs[1..];
      ConsecutiveParts(head, Flat(rest), first);
      OlderShardFits(json, shards, segs);
      ReadsText(json, m, head, first, |segs|, |segs| == oldest);
      ReadsOneShard(json, m, shards, |segs|, oldest);
      if |head| == 0 || Follows(m, first, |segs| == oldest) {
        ReadsOtherShards(json, m, |shards[|segs|]|, shards, segs, first, oldest);
      }
    }
  }

  lemma {:induction false} ReadsOtherShards(
      json: JsonText, m: Mem, size: nat, shards: map<nat, string>, segs: seq<seq<Frame>>, first: int, oldest: nat)
    requires Sound(json) && ShardsFit(json, shards, segs) && Consecutive(Flat(segs), first) && oldest >= |segs| > 0
    requires AllLogged(segs[0]) && (|segs[0]| == 0 || Follows(m, first, |segs| == oldest))
    ensures HasSlots(shards, |segs| - 1) && AllLogged(Flat(segs))
    ensures var (r, after) := ReadShards(json, Holding(m.(liveBytes := size), segs[0]), shards, |segs| - 1, oldest);
            if SegmentsFollow(m, segs, first, oldest)
            then Resized(r, 0) == Ok(Holding(m, Flat(segs)).(liveBytes := 0)) && after == shards
            else r.Err?
    decreases |segs|, 0
  {
    hide Sound, Loggable, ReadText, Consecutive, TextOf, TrackFrom, ShardsFit, ReadShards, SegmentsFollow;
    var head, rest := segs[0], segs[1..];
    var sized := m.(liveBytes := size);
    FramesAreLogged(Flat(segs), first);
    ConsecutiveParts(head, Flat(rest), first);
    OlderShardFits(json, shards, segs);
    ReadsShards(json, Holding(sized, head), shards, rest, first + |head|, oldest);
    FollowsIgnoresSize(m, size, first, |segs| == oldest);
    FollowsTailSegments(sized, segs, first, oldest);
    SegmentsIgnoreSize(m, size, segs, first, oldest);
    HoldingInParts(sized, head, Flat(rest));
  }

  lemma SegmentsIgnoreSize(m: Mem, size: nat, segs: seq<seq<Frame>>, first: int, oldest: nat)
    ensures SegmentsFollow(m.(liveBytes := size), segs, first, oldest) <==> SegmentsFollow(m, segs, first, oldest)
  {
  }

  // The shapes a crash can leave the live file in, over the frames it holds.
  datatype Shape = Absent | Whole | Unterminated | TornBy(torn: string)

  ghost predicate LiveFits(json: JsonText, live: Option<string>, tail: seq<Frame>, shape: Shape)
    requires AllLogged(tail)
  {
    match shape
    case Absent => live.None? && tail == []
    case Whole => live == Some(TextOf(json, tail))
    case Unterminated => live.Some? && tail != [] && live.value + "\n" == TextOf(json, tail)
    case TornBy(torn) => live == Some(TextOf(json, tail) + torn) && torn != "" && Torn(json, torn)
  }

  function TornSize(shape: Shape): nat {
    if shape.TornBy? then |shape.torn| else 0
  }

  // The live file as loading leaves it.
  function Mended(json: JsonText, live: Option<string>, tail: seq<Frame>): Option<string>
    requires forall f :: f in tail ==> LoggedKind(f)
  {
    if live.None? then None else Some(TextOf(json, tail))
  }

  lemma ReadsLive(json: JsonText, m: Mem, live: Option<string>, tail: seq<Frame>, first: int, shape: Shape)
    requires Sound(json) && Consecutive(tail, first) && AllLogged(tail) && LiveFits(json, live, tail, shape)
    requires tail == [] || first == m.high + 1
    ensures ReadLive(json, m, live)
         == (Ok(Holding(m.(liveBytes := |TextOf(json, tail)| + TornSize(shape)), tail)), Mended(json, live, tail))
  {
    hide Sound, Loggable, Consecutive, TextOf, ReadText, Torn;
    match shape
    case Absent =>
      NoText(json);
      assert m.frames + tail == m.frames;
    case Whole => ReadsText(json, m, tail, first, 0, false);
    case Unterminated => ReadsUnterminated(json, m, tail, first, live.value, 0, false);
    case TornBy(torn) => ReadsTorn(json, m, tail, first, torn, 0, false);
  }

  lemma NoText(json: JsonText)
    ensures TextOf(json, []) == ""
  {
  }

  // The segments and the tail are the directory's frames, oldest first.
  ghost predicate DirectoryFits(
      json: JsonText, keep: nat, files: Files, segs: seq<seq<Frame>>, tail: seq<Frame>, first: int, shape: Shape)
  {
    && SlotsHeld(files.shards, keep) == |segs|
    && ShardsFit(json, files.shards, segs)
    && Consecutive(Flat(segs) + tail, first)
    && AllLogged(tail) && LiveFits(json, files.live, tail, shape)
  }

  function Read(frames: seq<Frame>, first: nat, size: nat): Mem {
    Mem(frames, if |frames| == 0 then 0 else first + |frames| - 1, TrackAll(frames), size)
  }

  // Consecutive frames can be told from a gap only by their first seq: they load
  // when it is 1 or when the oldest shard holds a frame to found the count on.
  ghost predicate Founded(segs: seq<seq<Frame>>, tail: seq<Frame>, first: int) {
    Flat(segs) + tail == [] || first == 1 || (|segs| > 0 && segs[0] != [])
  }

  lemma ReadsDirectory(
      json: JsonText, keep: nat, files: Files, segs: seq<seq<Frame>>, tail: seq<Frame>, first: nat, shape: Shape)
    requires Sound(json) && DirectoryFits(json, keep, files, segs, tail, first, shape) && Founded(segs, tail, first)
    ensures Reading(json, keep, files)
         == (Ok(Read(Flat(segs) + tail, first, |TextOf(json, tail)| + TornSize(shape))),
             Files(Mended(json, files.live, tail), files.shards))
  {
    hide Sound, Loggable, Consecutive, TextOf, ShardsFit, ReadShards, ReadLive, LiveFits, TrackFrom, Torn, Mended, Holding;
    var older, size := Flat(segs), |TextOf(json, tail)| + TornSize(shape);
    ConsecutiveParts(older, tail, first);
    FoundedFollows(segs, tail, first);
    ReadsShards(json, EMPTY, files.shards, segs, first, |segs|);
    SlotsFromIs(files.shards, 1, keep);
    var m := ReadShards(json, EMPTY, files.shards, |segs|, |segs|).0.value;
    HoldsAll(m, older, tail, first, size);
    ReadsLive(json, m, files.live, tail, first + |older|, shape);
  }

  lemma HoldsAll(m: Mem, older: seq<Frame>, tail: seq<Frame>, first: nat, size: nat)
    requires Consecutive(older + tail, first) && AllLogged(older)
    requires m.(liveBytes := 0) == Holding(EMPTY, older).(liveBytes := 0)
    ensures m.high == if |older| == 0 then 0 else first + |older| - 1
    ensures AllLogged(tail) && Holding(m.(liveBytes := size), tail) == Read(older + tail, first, size)
  {
    hide Loggable, TrackFrom;
    ConsecutiveParts(older, tail, first);
    HoldingEndsAt(EMPTY, older, first);
    FramesAreLogged(older + tail, first);
    assert m.(liveBytes := size) == Holding(EMPTY.(liveBytes := size), older);
    HoldingInParts(EMPTY.(liveBytes := size), older, tail);
    HoldingEndsAt(EMPTY.(liveBytes := size), older + tail, first);
    assert [] + (older + tail) == older + tail;
  }

  lemma FoundedFollows(segs: seq<seq<Frame>>, tail: seq<Frame>, first: int)
    requires Founded(segs, tail, first)
    ensures SegmentsFollow(EMPTY, segs, first, |segs|)
    ensures Flat(segs) == [] && tail != [] ==> first == 1
  {
    if Flat(segs) + tail == [] {
      assert |Flat(segs)| + |tail| == 0;
    }
    if |segs| > 0 && segs[0] != [] {
      assert |Flat(segs)| >= |segs[0]|;
    }
  }

  lemma ReadsNoLive(json: JsonText, m: Mem, tail: seq<Frame>, first: int)
    requires Sound(json) && Consecutive(tail, first) && AllLogged(tail) && tail != [] && first != m.high + 1
    ensures ReadLive(json, m, Some(TextOf(json, tail))).0.Err?
  {
    hide Sound, Loggable, Consecutive, TextOf, ReadText;
    ReadsText(json, m, tail, first, 0, false);
  }

  // A directory of whole files that hold consecutive frames is accepted exactly
  // when its count can be founded. An oldest shard left empty, or a live file
  // left without its slot 1, is refused unless the frames start at 1.
  lemma LoadAcceptsExactly(json: JsonText, keep: nat, files: Files, segs: seq<seq<Frame>>, tail: seq<Frame>, first: nat)
    requires Sound(json)
    requires DirectoryFits(json, keep, files, segs, tail, first, if files.live.Some? then Whole else Absent)
    ensures Reading(json, keep, files).0.Ok? <==> Founded(segs, tail, first)
    ensures Reading(json, keep, files).0.Ok? ==> Reading(json, keep, files).0.value.frames == Flat(segs) + tail
  {
    if Founded(segs, tail, first) {
      ReadsDirectory(json, keep, files, segs, tail, first, if files.live.Some? then Whole else Absent);
    } else {
      hide Sound, Loggable, Consecutive, TextOf, ShardsFit, ReadShards, ReadLive, TrackFrom, Torn;
      ConsecutiveParts(Flat(segs), tail, first);
      ReadsShards(json, EMPTY, files.shards, segs, first, |segs|);
      SlotsFromIs(files.shards, 1, keep);
      if Flat(segs) == [] {
        var m := ReadShards(json, EMPTY, files.shards, |segs|, |segs|).0.value;
        assert Flat(segs) + tail == tail;
        assert m.high == 0;
        ReadsNoLive(json, m, tail, first + |Flat(segs)|);
      }
    }
  }
}
