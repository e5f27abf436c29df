// What the chat frame log makes of any directory at all (src/chat/frame-log.ts):
// it loads exactly when its lines are consecutive logged frames, and names the
// first line that is not.
module FrameDamage {
  import opened Outcomes
  import opened ChatFrames
  import opened FrameText
  import opened FrameHistory

  // ---- The lines of a directory ----------------------------------------------------

  // One line of a file, numbered from 1; the file is a shard's slot or 0.
  datatype Entry = Entry(file: nat, line: nat, raw: string)

  // The lines of a file; a final one that is no JSON was torn by a crash.
  function BodyLines(json: JsonText, text: string): seq<string> {
    var lines := Lines(text);
    if |lines| > 0 && json.parse(lines[|lines| - 1]).None? then lines[..|lines| - 1] else lines
  }

  function Numbered(file: nat, lines: seq<string>): seq<Entry> {
    seq(|lines|, i requires 0 <= i < |lines| => Entry(file, i + 1, lines[i]))
  }

  function ShardEntries(json: JsonText, shards: map<nat, string>, slot: nat): seq<Entry>
    requires HasSlots(shards, slot)
  {
    if slot == 0 then []
    else Numbered(slot, BodyLines(json, shards[slot])) + ShardEntries(json, shards, slot - 1)
  }

  // Oldest shard first, then the live file.
  function Entries(json: JsonText, files: Files, slots: nat): seq<Entry>
    requires HasSlots(files.shards, slots)
  {
    ShardEntries(json, files.shards, slots)
    + (if files.live.Some? then Numbered(0, BodyLines(json, files.live.value)) else [])
  }

  // ---- What they hold -----------------------------------------------------------------

  ghost predicate Stored(json: JsonText, raw: string, f: Frame) {
    && json.parse(raw).Some? && ParseServerFrame(json, json.parse(raw).value) == Some(f)
    && LoggedKind(f) && !Fatal(f)
  }

  // Only the first frame of the oldest shard may have any seq.
  ghost predicate Founds(oldest: nat, e: Entry, i: nat) {
    i == 0 && e.file == oldest && oldest > 0
  }

  // Every entry is a logged frame, and their seqs count up from 1 or from
  // whatever the oldest shard starts at.
  ghost predicate Chained(json: JsonText, oldest: nat, entries: seq<Entry>, frames: seq<Frame>) {
    && |frames| == |entries|
    && (forall i :: 0 <= i < |frames| ==> Stored(json, entries[i].raw, frames[i]))
    && (forall i :: 0 <= i < |frames| ==>
          LoggedFrameSeq(frames[i]) == SeqAfter(frames[..i]) || Founds(oldest, entries[i], i))
  }

  function SeqAfter(frames: seq<Frame>): nat {
    if |frames| == 0 || !LoggedKind(frames[|frames| - 1]) then 1 else LoggedFrameSeq(frames[|frames| - 1]) + 1
  }

  // What is wrong with an entry that comes after these frames.
  ghost predicate Faulty(json: JsonText, oldest: nat, e: Entry, frames: seq<Frame>, problem: Problem) {
    match problem
    case Unparseable => json.parse(e.raw).None?
    case NotLogged =>
      && json.parse(e.raw).Some?
      && var f := ParseServerFrame(json, json.parse(e.raw).value); f.None? || !LoggedKind(f.value)
    case FatalPersisted =>
      && json.parse(e.raw).Some?
      && var f := ParseServerFrame(json, json.parse(e.raw).value); f.Some? && Fatal(f.value)
    case Gap(expected, found) =>
      && expected == SeqAfter(frames) && found != expected && !Founds(oldest, e, |frames|)
      && exists f :: Stored(json, e.raw, f) && LoggedFrameSeq(f) == found
  }

  ghost predicate FaultAt(json: JsonText, oldest: nat, entries: seq<Entry>, frames: seq<Frame>, c: Corrupt) {
    && |frames| < |entries| && Chained(json, oldest, entries[..|frames|], frames)
    && c.file == entries[|frames|].file && c.line == entries[|frames|].line
    && Faulty(json, oldest, entries[|frames|], frames, c.problem)
  }

  // The first entry that does not continue the chain, and why.
  ghost predicate BrokenAt(json: JsonText, oldest: nat, entries: seq<Entry>, c: Corrupt) {
    exists frames :: FaultAt(json, oldest, entries, frames, c)
  }

  // ---- One break at most ---------------------------------------------------------------

  lemma ChainedPrefix(json: JsonText, oldest: nat, entries: seq<Entry>, frames: seq<Frame>, k: nat)
    requires Chained(json, oldest, entries, frames) && k <= |frames|
    ensures Chained(json, oldest, entries[..k], frames[..k])
  {
    hide Stored, SeqAfter, Founds;
    forall i | 0 <= i < k ensures frames[..k][..i] == frames[..i] {
    }
  }

  lemma {:induction false} ChainsAgree(json: JsonText, oldest: nat, entries: seq<Entry>, a: seq<Frame>, b: seq<Frame>)
    requires |a| <= |b| <= |entries|
    requires Chained(json, oldest, entries[..|a|], a) && Chained(json, oldest, entries[..|b|], b)
    ensures a == b[..|a|]
  {
    forall i | 0 <= i < |a| ensures a[i] == b[i] {
      assert entries[..|a|][i] == entries[..|b|][i];
      assert Stored(json, entries[i].raw, a[i]) && Stored(json, entries[i].raw, b[i]);
    }
  }

  lemma ChainedLink(json: JsonText, oldest: nat, entries: seq<Entry>, frames: seq<Frame>, k: nat)
    requires Chained(json, oldest, entries, frames) && k < |frames|
    ensures Stored(json, entries[k].raw, frames[k])
    ensures LoggedFrameSeq(frames[k]) == SeqAfter(frames[..k]) || Founds(oldest, entries[k], k)
  {
  }

  lemma ChainedLength(json: JsonText, oldest: nat, entries: seq<Entry>, frames: seq<Frame>)
    requires Chained(json, oldest, entries, frames)
    ensures |entries| == |frames|
  {
  }

  lemma FaultyIsNoLink(json: JsonText, oldest: nat, e: Entry, frames: seq<Frame>, f: Frame, problem: Problem)
    requires Faulty(json, oldest, e, frames, problem) && Stored(json, e.raw, f)
    ensures LoggedFrameSeq(f) != SeqAfter(frames) && !Founds(oldest, e, |frames|)
  {
    hide ParseServerFrame, SeqAfter, Founds;
  }

  lemma FaultyBreaks(json: JsonText, oldest: nat, entries: seq<Entry>, frames: seq<Frame>, longer: seq<Frame>, c: Corrupt)
    requires FaultAt(json, oldest, entries, frames, c) && |frames| < |longer| <= |entries|
    ensures !Chained(json, oldest, entries[..|longer|], longer)
  {
    hide Faulty, Stored, SeqAfter, Founds;
    if Chained(json, oldest, entries[..|longer|], longer) {
      ChainsAgree(json, oldest, entries, frames, longer);
      ChainedLink(json, oldest, entries[..|longer|], longer, |frames|);
      FaultyIsNoLink(json, oldest, entries[|frames|], longer[..|frames|], longer[|frames|], c.problem);
    }
  }

  lemma FaultsAgree(json: JsonText, oldest: nat, entries: seq<Entry>, c: Corrupt, d: Corrupt)
    requires BrokenAt(json, oldest, entries, c) && BrokenAt(json, oldest, entries, d)
    ensures c == d
  {
    hide Chained, Faulty;
    var a :| FaultAt(json, oldest, entries, a, c);
    var b :| FaultAt(json, oldest, entries, b, d);
    if |a| < |b| {
      FaultyBreaks(json, oldest, entries, a, b, c);
    } else if |b| < |a| {
      FaultyBreaks(json, oldest, entries, b, a, d);
    } else {
      ChainsAgree(json, oldest, entries, a, b);
      assert b[..|a|] == b;
      OneProblem(json, oldest, entries[|a|], a, c.problem, d.problem);
    }
  }

  lemma OneProblem(json: JsonText, oldest: nat, e: Entry, frames: seq<Frame>, p: Problem, q: Problem)
    requires Faulty(json, oldest, e, frames, p) && Faulty(json, oldest, e, frames, q)
    ensures p == q
  {
    hide ParseServerFrame, SeqAfter, Founds;
  }

  // ---- Reading a file ----------------------------------------------------------------------

  ghost predicate Takes(json: JsonText, oldest: nat, entries: seq<Entry>, m: Mem) {
    && Chained(json, oldest, entries, m.frames)
    && m.high + 1 == SeqAfter(m.frames) && m.tracked == TrackAll(m.frames)
  }

  // What reading these entries comes to.
  ghost predicate Outcome(json: JsonText, oldest: nat, entries: seq<Entry>, r: Result<Mem, Corrupt>) {
    match r
    case Ok(m) => Takes(json, oldest, entries, m)
    case Err(c) => BrokenAt(json, oldest, entries, c)
  }

  lemma ReadsOne(json: JsonText, oldest: nat, before: seq<Entry>, m: Mem, e: Entry)
    requires Takes(json, oldest, before, m)
    ensures var r := ReadLine(json, m, e.raw, e.file == oldest && oldest > 0);
            Outcome(json, oldest, before + [e], if r.Ok? then Ok(r.value) else Err(Corrupt(e.file, e.line, r.error)))
  {
    hide ParseServerFrame, Track, Chained, Faulty, Stored;
    var all := before + [e];
    ChainedLength(json, oldest, before, m.frames);
    assert all[..|before|] == before;
    var r := ReadLine(json, m, e.raw, e.file == oldest && oldest > 0);
    if r.Ok? {
      LineIsStored(json, oldest, m, e);
      ChainGrows(json, oldest, before, m.frames, e, r.value.frames[|m.frames|]);
      assert r.value.frames[..|m.frames|] == m.frames;
    } else {
      LineIsFaulty(json, oldest, m, e);
      assert FaultAt(json, oldest, all, m.frames, Corrupt(e.file, e.line, r.error));
    }
  }

  lemma LineIsStored(json: JsonText, oldest: nat, m: Mem, e: Entry)
    requires ReadLine(json, m, e.raw, e.file == oldest && oldest > 0).Ok? && m.high + 1 == SeqAfter(m.frames)
    ensures var r := ReadLine(json, m, e.raw, e.file == oldest && oldest > 0).value;
            && |r.frames| == |m.frames| + 1 && r.frames == m.frames + [r.frames[|m.frames|]]
            && var f := r.frames[|m.frames|];
               && Stored(json, e.raw, f) && r.high == LoggedFrameSeq(f) && r.tracked == Track(m.tracked, f)
               && (LoggedFrameSeq(f) == SeqAfter(m.frames) || Founds(oldest, e, |m.frames|))
  {
    hide ParseServerFrame, Track;
  }

  lemma LineIsFaulty(json: JsonText, oldest: nat, m: Mem, e: Entry)
    requires ReadLine(json, m, e.raw, e.file == oldest && oldest > 0).Err? && m.high + 1 == SeqAfter(m.frames)
    ensures Faulty(json, oldest, e, m.frames, ReadLine(json, m, e.raw, e.file == oldest && oldest > 0).error)
  {
    hide ParseServerFrame, Track, SeqAfter;
    var r := ReadLine(json, m, e.raw, e.file == oldest && oldest > 0);
    if r.error.Gap? {
      var f := ParseServerFrame(json, json.parse(e.raw).value).value;
      assert Stored(json, e.raw, f);
    }
  }

  lemma ChainGrows(json: JsonText, oldest: nat, before: seq<Entry>, frames: seq<Frame>, e: Entry, f: Frame)
    requires Chained(json, oldest, before, frames) && Stored(json, e.raw, f)
    requires LoggedFrameSeq(f) == SeqAfter(frames) || Founds(oldest, e, |frames|)
    ensures Chained(json, oldest, before + [e], frames + [f]) && SeqAfter(frames + [f]) == LoggedFrameSeq(f) + 1
  {
    hide ParseServerFrame;
    var entries, all := before + [e], frames + [f];
    assert SeqAfter(all) == LoggedFrameSeq(f) + 1;
    hide SeqAfter, Founds;
    assert all[..|frames|] == frames;
    forall i | 0 <= i < |all|
      ensures Stored(json, entries[i].raw, all[i])
           && (LoggedFrameSeq(all[i]) == SeqAfter(all[..i]) || Founds(oldest, entries[i], i))
    {
      if i < |frames| {
        assert all[..i] == frames[..i];
        ChainedLink(json, oldest, before, frames, i);
      }
    }
  }

  lemma BrokenStays(json: JsonText, oldest: nat, entries: seq<Entry>, more: seq<Entry>, c: Corrupt)
    requires BrokenAt(json, oldest, entries, c)
    ensures BrokenAt(json, oldest, entries + more, c)
  {
    hide Chained, Faulty;
    var frames :| FaultAt(json, oldest, entries, frames, c);
    assert (entries + more)[..|frames|] == entries[..|frames|];
    assert FaultAt(json, oldest, entries + more, frames, c);
  }

  lemma {:induction false} ReadsNumbered(json: JsonText, oldest: nat, before: seq<Entry>, m: Mem, file: nat, lines: seq<string>)
    requires Takes(json, oldest, before, m)
    ensures Outcome(json, oldest, before + Numbered(file, lines), ReadLines(json, m, lines, file, file == oldest && oldest > 0))
  {
    hide Takes, BrokenAt, ReadLine;
    if |lines| == 0 {
      assert before + Numbered(file, lines) == before;
    } else {
      var init, last := lines[..|lines| - 1], Entry(file, |lines|, lines[|lines| - 1]);
      ReadsNumbered(json, oldest, before, m, file, init);
      assert before + Numbered(file, init) + [last] == before + Numbered(file, lines);
      var r := ReadLines(json, m, init, file, file == oldest && oldest > 0);
      if r.Ok? {
        ReadsOne(json, oldest, before + Numbered(file, init), r.value, last);
      } else {
        BrokenStays(json, oldest, before + Numbered(file, init), [last], r.error);
      }
    }
  }

  // ---- The text a file is left with ------------------------------------------------------

  // Splitting loses only a missing final newline.
  ghost predicate Splits(text: string, lines: seq<string>) {
    && OneLineEach(lines) && (|lines| == 0 <==> text == "")
    && (if text == "" || EndsLine(text) then Unlines(lines) == text
        else Unlines(lines) == text + "\n" && |lines| > 0 && lines[|lines| - 1] == Tail(text))
  }

  lemma {:induction false} SplitIs(text: string)
    ensures Splits(text, Lines(text))
    decreases |text|
  {
    var end := LineEnd(text);
    hide Splits;
    if end == |text| {
      OneLineSplits(text);
    } else {
      var line, rest := text[..end], text[end + 1..];
      assert text == line + "\n" + rest;
      SplitIs(rest);
      LinesStep(line, rest);
      SplitsOneMore(line, rest, Lines(rest));
    }
  }

  lemma SplitsOneMore(line: string, rest: string, lines: seq<string>)
    requires OneLine(line) && Splits(rest, lines)
    ensures Splits(line + "\n" + rest, [line] + lines)
  {
    hide Lines, Tail;
    UnlinesFirst(line, lines);
    hide Unlines;
    if rest == "" {
      assert line + "\n" + rest == line + "\n";
    } else if EndsLine(rest) {
      assert EndsLine(line + "\n" + rest);
    } else {
      TailSkips(line + "\n", rest);
      assert line + "\n" + (rest + "\n") == line + "\n" + rest + "\n";
    }
  }

  lemma UnlinesFirst(line: string, lines: seq<string>)
    ensures Unlines([line] + lines) == line + "\n" + Unlines(lines)
  {
    assert ([line] + lines)[1..] == lines;
  }

  lemma OneLineSplits(text: string)
    requires LineEnd(text) == |text|
    ensures Splits(text, Lines(text))
  {
    assert text[..|text|] == text;
    UnlinesOne(text);
    TailIs("", text);
    assert "" + text == text;
  }

  lemma {:induction false} TailSkips(before: string, text: string)
    requires EndsLine(before)
    ensures Tail(before + text) == Tail(text)
  {
    if text == "" {
      assert before + text == before;
    } else if !EndsLine(text) {
      assert (before + text)[..|before + text| - 1] == before + text[..|text| - 1];
      TailSkips(before, text[..|text| - 1]);
    }
  }

  lemma TerminatedLines(json: JsonText, text: string)
    ensures Lines(Terminated(json, text)) == Lines(text)
  {
    hide Lines, Unlines, Repairable, Tail;
    SplitIs(text);
    if text != "" && !EndsLine(text) {
      LinesOfText(Lines(text), "");
      assert text + "\n" + "" == text + "\n";
    }
  }

  // A final line that is no torn one and was accepted could be terminated.
  lemma AcceptedEndIsRepairable(json: JsonText, oldest: nat, entries: seq<Entry>, frames: seq<Frame>, tail: string)
    requires Chained(json, oldest, entries, frames) && |entries| > 0 && entries[|entries| - 1].raw == tail
    ensures Repairable(json, tail)
  {
    assert Stored(json, entries[|entries| - 1].raw, frames[|frames| - 1]);
  }

  lemma ReadsFile(json: JsonText, oldest: nat, before: seq<Entry>, m: Mem, file: nat, text: string)
    requires Takes(json, oldest, before, m)
    ensures var load := ReadText(json, m, text, file, file == oldest && oldest > 0);
            && Outcome(json, oldest, before + Numbered(file, BodyLines(json, text)), load.outcome)
            && (load.outcome.Ok? ==> load.text == Unlines(BodyLines(json, text)))
  {
    hide Chained, BrokenAt, ReadLines, Lines, Unlines, Repairable, Tail;
    TerminatedLines(json, text);
    SplitIs(text);
    var sized := m.(liveBytes := |Terminated(json, text)|);
    assert Takes(json, oldest, before, sized);
    var body := BodyLines(json, text);
    ReadsNumbered(json, oldest, before, sized, file, body);
    var load := ReadText(json, m, text, file, file == oldest && oldest > 0);
    if load.outcome.Ok? && text != "" && !EndsLine(text) && body == Lines(text) {
      var all := before + Numbered(file, body);
      assert all[|all| - 1].raw == body[|body| - 1];
      AcceptedEndIsRepairable(json, oldest, all, load.outcome.value.frames, Tail(text));
    }
  }

  // ---- Reading a directory --------------------------------------------------------------------

  function MendedShards(json: JsonText, shards: map<nat, string>, slots: nat): map<nat, string> {
    map s | s in shards :: if 1 <= s <= slots then Unlines(BodyLines(json, shards[s])) else shards[s]
  }

  lemma {:induction false} ReadsEveryShard(json: JsonText, oldest: nat, before: seq<Entry>, m: Mem, shards: map<nat, string>, slot: nat)
    requires Takes(json, oldest, before, m) && HasSlots(shards, slot) && slot <= oldest
    ensures var (r, after) := ReadShards(json, m, shards, slot, oldest);
            && Outcome(json, oldest, before + ShardEntries(json, shards, slot), r)
            && (r.Ok? ==> after == MendedShards(json, shards, slot))
    decreases slot
  {
    hide Takes, BrokenAt, ReadText, BodyLines, Numbered, Unlines;
    if slot == 0 {
      assert before + [] == before;
    } else {
      var here, rest := Numbered(slot, BodyLines(json, shards[slot])), ShardEntries(json, shards, slot - 1);
      ReadsFile(json, oldest, before, m, slot, shards[slot]);
      assert before + here + rest == before + (here + rest);
      var load := ReadText(json, m, shards[slot], slot, slot == oldest);
      var mended := shards[slot := load.text];
      if load.outcome.Ok? {
        ReadsEveryShard(json, oldest, before + here, load.outcome.value, mended, slot - 1);
        SameEntries(json, shards, mended, slot - 1);
      } else {
        BrokenStays(json, oldest, before + here, rest, load.outcome.error);
      }
    }
  }

  lemma {:induction false} SameEntries(json: JsonText, a: map<nat, string>, b: map<nat, string>, slot: nat)
    requires HasSlots(a, slot) && HasSlots(b, slot) && forall s: nat :: 1 <= s <= slot ==> a[s] == b[s]
    ensures ShardEntries(json, a, slot) == ShardEntries(json, b, slot)
  {
    hide BodyLines, Numbered;
    if slot > 0 { SameEntries(json, a, b, slot - 1); }
  }

  lemma ReadsEveryFile(json: JsonText, keep: nat, files: Files, slots: nat)
    requires slots <= keep && HasSlots(files.shards, slots) && (slots < keep ==> slots + 1 !in files.shards)
    ensures var (r, after) := Reading(json, keep, files);
            && Outcome(json, slots, Entries(json, files, slots), r)
            && (r.Ok? ==>
                  && after.shards == MendedShards(json, files.shards, slots)
                  && after.live == if files.live.None? then None else Some(Unlines(BodyLines(json, files.live.value))))
  {
    hide Chained, BrokenAt, ReadText, BodyLines, Numbered, Unlines, ReadShards, ShardEntries, MendedShards;
    SlotsFromUnique(files.shards, 1, keep, slots);
    assert Chained(json, slots, [], []) by { NoEntries(json, slots); }
    ReadsEveryShard(json, slots, [], EMPTY, files.shards, slots);
    var older := ReadShards(json, EMPTY, files.shards, slots, slots).0;
    var entries := ShardEntries(json, files.shards, slots);
    assert [] + entries == entries;
    if files.live.None? {
      assert entries + [] == entries;
    } else if older.Ok? {
      ReadsFile(json, slots, entries, older.value, 0, files.live.value);
    } else {
      BrokenStays(json, slots, entries, Numbered(0, BodyLines(json, files.live.value)), older.error);
    }
  }

  lemma NoEntries(json: JsonText, oldest: nat)
    ensures Chained(json, oldest, [], [])
  {
  }

  // Any directory whatever, of which `slots` shards are read. It loads exactly
  // when every line, a torn final line of a file apart, is a logged frame that is
  // not fatal and continues the count; then memory holds exactly those frames, in
  // order, and each file is left as exactly its lines. Otherwise the first line
  // that is no such frame is named, with what is wrong with it.
  lemma LoadRefusesExactlyDamage(json: JsonText, keep: nat, files: Files, slots: nat)
    requires slots <= keep && HasSlots(files.shards, slots) && (slots < keep ==> slots + 1 !in files.shards)
    ensures var (r, after) := Reading(json, keep, files);
            var entries := Entries(json, files, slots);
            && (forall frames :: Chained(json, slots, entries, frames) <==> r.Ok? && r.value.frames == frames)
            && (forall c :: BrokenAt(json, slots, entries, c) <==> r == Err(c))
            && (r.Ok? ==>
                  && r.value.high + 1 == SeqAfter(r.value.frames) && r.value.tracked == TrackAll(r.value.frames)
                  && after.shards == MendedShards(json, files.shards, slots)
                  && after.live == if files.live.None? then None else Some(Unlines(BodyLines(json, files.live.value))))
  {
    hide Reading, Entries, Chained, FaultAt, MendedShards, BodyLines, Unlines, TrackAll, SeqAfter, SlotsFrom;
    ReadsEveryFile(json, keep, files, slots);
    var entries, r := Entries(json, files, slots), Reading(json, keep, files).0;
    forall frames | Chained(json, slots, entries, frames) ensures r.Ok? && r.value.frames == frames {
      ChainIsWhole(json, slots, entries, frames, r);
    }
    forall c | BrokenAt(json, slots, entries, c) ensures r == Err(c) {
      BreakIsNamed(json, slots, entries, c, r);
    }
  }

  lemma ChainIsWhole(json: JsonText, oldest: nat, entries: seq<Entry>, frames: seq<Frame>, r: Result<Mem, Corrupt>)
    requires Outcome(json, oldest, entries, r) && Chained(json, oldest, entries, frames)
    ensures r.Ok? && r.value.frames == frames
  {
    hide Faulty;
    assert entries[..|frames|] == entries;
    if r.Ok? {
      ChainsAgree(json, oldest, entries, r.value.frames, frames);
      assert frames[..|frames|] == frames;
    } else {
      var short :| FaultAt(json, oldest, entries, short, r.error);
      FaultyBreaks(json, oldest, entries, short, frames, r.error);
    }
  }

  lemma BreakIsNamed(json: JsonText, oldest: nat, entries: seq<Entry>, c: Corrupt, r: Result<Mem, Corrupt>)
    requires Outcome(json, oldest, entries, r) && BrokenAt(json, oldest, entries, c)
    ensures r == Err(c)
  {
    hide Chained, FaultAt;
    if r.Ok? {
      var frames :| FaultAt(json, oldest, entries, frames, c);
      BreaksEveryChain(json, oldest, entries, frames, r.value.frames, c);
    } else {
      FaultsAgree(json, oldest, entries, c, r.error);
    }
  }

  lemma BreaksEveryChain(json: JsonText, oldest: nat, entries: seq<Entry>, frames: seq<Frame>, whole: seq<Frame>, c: Corrupt)
    requires FaultAt(json, oldest, entries, frames, c)
    ensures !Chained(json, oldest, entries, whole)
  {
    hide Faulty;
    if |whole| == |entries| {
      assert entries[..|whole|] == entries;
      FaultyBreaks(json, oldest, entries, frames, whole, c);
    }
  }
}
