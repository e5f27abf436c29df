// Which turn and which tools a history leaves open, told from its frames alone
// (src/chat/frame-log.ts), and what a boot appends to close them.
module FrameTurns {
  import opened Outcomes
  import opened ChatFrames
  import opened FrameHistory
  import opened FrameReading
  import opened FrameAppending
  import opened FrameRuns
  import opened FrameTheorems

  // ---- Told from the frames ---------------------------------------------------------

  // How many times a tool of this name starts, or ends, among these frames.
  function Edges(frames: seq<Frame>, name: string, edge: Edge): nat {
    if |frames| == 0 then 0
    else
      var last := frames[|frames| - 1];
      Edges(frames[..|frames| - 1], name, edge) + (if last.Tool? && last.name == name && last.edge == edge then 1 else 0)
  }

  // The last turn frame starts a turn.
  ghost predicate InTurn(frames: seq<Frame>) {
    exists i :: 0 <= i < |frames| && frames[i].Turn? && frames[i].edge.Start?
                && forall j :: i < j < |frames| ==> !frames[j].Turn?
  }

  predicate StartsTool(f: Frame) {
    f.Tool? && f.edge.Start?
  }

  // How often the name started at `i` starts, or ends, after it and before `j`.
  function Between(frames: seq<Frame>, i: nat, j: nat, edge: Edge): nat
    requires i < j <= |frames| && StartsTool(frames[i])
  {
    Edges(frames[i + 1..j], frames[i].name, edge)
  }

  // The tool started at `i` still runs: never since have more of its name ended
  // than started.
  ghost predicate StillRuns(frames: seq<Frame>, i: nat) {
    && i < |frames| && StartsTool(frames[i])
    && forall j :: i < j <= |frames| ==> Between(frames, i, j, End) <= Between(frames, i, j, Start)
  }

  // ---- The turn ----------------------------------------------------------------------

  lemma TrackAppends(frames: seq<Frame>, f: Frame)
    ensures TrackAll(frames + [f]) == Track(TrackAll(frames), f)
  {
    assert (frames + [f])[..|frames|] == frames;
  }

  lemma {:induction false} TurnIsOpen(frames: seq<Frame>)
    ensures TrackAll(frames).turnOpen <==> InTurn(frames)
  {
    if |frames| > 0 {
      var init, last := frames[..|frames| - 1], frames[|frames| - 1];
      TurnIsOpen(init);
      assert frames == init + [last];
      TrackAppends(init, last);
      hide TrackAll;
      if last.Turn? {
        if last.edge.Start? { assert frames[|frames| - 1].Turn?; }
      } else {
        SameTurn(init, last);
      }
    }
  }

  lemma SameTurn(init: seq<Frame>, last: Frame)
    requires !last.Turn?
    ensures InTurn(init + [last]) <==> InTurn(init)
  {
    var frames := init + [last];
    assert forall k :: 0 <= k < |init| ==> frames[k] == init[k];
    if InTurn(init) {
      var i :| 0 <= i < |init| && init[i].Turn? && init[i].edge.Start? && forall j :: i < j < |init| ==> !init[j].Turn?;
      assert frames[i].Turn? && frames[i].edge.Start?;
    }
    if InTurn(frames) {
      var i :| 0 <= i < |frames| && frames[i].Turn? && frames[i].edge.Start? && forall j :: i < j < |frames| ==> !frames[j].Turn?;
      assert init[i].Turn? && init[i].edge.Start?;
    }
  }

  // ---- The tools ----------------------------------------------------------------------

  // How many more of the name at `i` started than ended since.
  function Since(frames: seq<Frame>, i: nat): int
    requires i < |frames| && StartsTool(frames[i])
  {
    Between(frames, i, |frames|, Start) - Between(frames, i, |frames|, End)
  }

  lemma EdgesAppend(frames: seq<Frame>, f: Frame, name: string, edge: Edge)
    ensures Edges(frames + [f], name, edge)
         == Edges(frames, name, edge) + (if f.Tool? && f.name == name && f.edge == edge then 1 else 0)
  {
    assert (frames + [f])[..|frames|] == frames;
  }

  // One more frame: a running tool stops running exactly when the frame ends its
  // name and no more have started since than ended.
  lemma RunsAppend(frames: seq<Frame>, f: Frame, i: nat)
    requires i < |frames| && StartsTool(frames[i])
    ensures var ends := f.Tool? && f.name == frames[i].name && f.edge.End?;
            var starts := f.Tool? && f.name == frames[i].name && f.edge.Start?;
            && (frames + [f])[i] == frames[i]
            && Since(frames + [f], i) == Since(frames, i) + (if starts then 1 else if ends then -1 else 0)
            && (StillRuns(frames + [f], i) <==> StillRuns(frames, i) && (ends ==> Since(frames, i) > 0))
  {
    var all := frames + [f];
    BetweenAppends(frames, f, i, |frames| + 1, Start);
    BetweenAppends(frames, f, i, |frames| + 1, End);
    forall j | i < j <= |frames|
      ensures Between(all, i, j, Start) == Between(frames, i, j, Start) && Between(all, i, j, End) == Between(frames, i, j, End)
    {
      BetweenAppends(frames, f, i, j, Start);
      BetweenAppends(frames, f, i, j, End);
    }
    hide Between;
    if StillRuns(frames, i) {
      assert Between(frames, i, |frames|, End) <= Between(frames, i, |frames|, Start);
    }
    if StillRuns(all, i) {
      assert Between(all, i, |all|, End) <= Between(all, i, |all|, Start);
      forall j | i < j <= |frames| ensures Between(frames, i, j, End) <= Between(frames, i, j, Start) {
        assert Between(all, i, j, End) <= Between(all, i, j, Start);
      }
    }
  }

  lemma BetweenAppends(frames: seq<Frame>, f: Frame, i: nat, j: nat, edge: Edge)
    requires i < |frames| && StartsTool(frames[i]) && i < j <= |frames| + 1
    ensures (frames + [f])[i] == frames[i]
    ensures Between(frames + [f], i, j, edge)
         == if j <= |frames| then Between(frames, i, j, edge)
            else Between(frames, i, |frames|, edge) + (if f.Tool? && f.name == frames[i].name && f.edge == edge then 1 else 0)
  {
    hide Edges;
    var all := frames + [f];
    assert all[..|frames|] == frames;
    if j <= |frames| {
      assert all[i + 1..j] == all[..|frames|][i + 1..j];
    } else {
      assert all[i + 1..j] == frames[i + 1..|frames|] + [f];
      EdgesAppend(frames[i + 1..|frames|], f, frames[i].name, edge);
    }
  }

  lemma NewestRuns(frames: seq<Frame>, f: Frame)
    requires StartsTool(f)
    ensures StillRuns(frames + [f], |frames|) && Since(frames + [f], |frames|) == 0
  {
    var all := frames + [f];
    assert all[|frames| + 1..|all|] == [];
  }

  // How often a name comes after place `k`.
  function ListedAfter(names: seq<string>, k: nat, name: string): nat
    requires k < |names|
  {
    multiset(names[k + 1..])[name]
  }

  // `at` lists, in order, where the running tools started; `names` are theirs.
  ghost predicate Lists(frames: seq<Frame>, names: seq<string>, at: seq<nat>) {
    && |at| == |names|
    && (forall k :: 0 <= k < |at| ==> StillRuns(frames, at[k]) && frames[at[k]].name == names[k])
    && (forall k, m :: 0 <= k < m < |at| ==> at[k] < at[m])
    && (forall i :: 0 <= i < |frames| && StillRuns(frames, i) ==> i in at)
  }

  // As many of its name started since, and did not end, as are listed after it.
  ghost predicate Counted(frames: seq<Frame>, names: seq<string>, at: seq<nat>) {
    && |at| == |names|
    && forall k :: 0 <= k < |at| ==>
         at[k] < |frames| && StartsTool(frames[at[k]]) && Since(frames, at[k]) == ListedAfter(names, k, names[k])
  }

  lemma StartJoins(frames: seq<Frame>, f: Frame, names: seq<string>, at: seq<nat>)
    requires StartsTool(f) && Lists(frames, names, at) && Counted(frames, names, at)
    ensures Lists(frames + [f], names + [f.name], at + [|frames|])
    ensures Counted(frames + [f], names + [f.name], at + [|frames|])
  {
    var all, more, places := frames + [f], names + [f.name], at + [|frames|];
    hide StillRuns, Since, ListedAfter, StartsTool;
    NewestRuns(frames, f);
    NewestIsLast(names, f.name);
    forall k | 0 <= k < |places|
      ensures StillRuns(all, places[k]) && all[places[k]].name == more[k] && StartsTool(all[places[k]])
      ensures Since(all, places[k]) == ListedAfter(more, k, more[k])
    {
      if k < |at| { StartKeeps(frames, f, names, at, k); }
    }
    forall i | 0 <= i < |all| && StillRuns(all, i) ensures i in places {
      if i < |frames| {
        RunsFromStart(all, i);
        RunsAppend(frames, f, i);
        assert i in at;
      } else {
        assert places[|at|] == i;
      }
    }
  }

  lemma NewestIsLast(names: seq<string>, name: string)
    ensures ListedAfter(names + [name], |names|, name) == 0
  {
  }

  lemma StartKeeps(frames: seq<Frame>, f: Frame, names: seq<string>, at: seq<nat>, k: nat)
    requires StartsTool(f) && Lists(frames, names, at) && Counted(frames, names, at) && k < |at|
    ensures StillRuns(frames + [f], at[k]) && (frames + [f])[at[k]].name == names[k] && StartsTool((frames + [f])[at[k]])
    ensures Since(frames + [f], at[k]) == ListedAfter(names + [f.name], k, names[k])
  {
    hide StillRuns, Since, ListedAfter;
    RunsFromStart(frames, at[k]);
    RunsAppend(frames, f, at[k]);
    AfterJoins(names, k, f.name, names[k]);
  }

  lemma AfterJoins(names: seq<string>, k: nat, last: string, name: string)
    requires k < |names|
    ensures ListedAfter(names + [last], k, name) == ListedAfter(names, k, name) + (if name == last then 1 else 0)
  {
    assert (names + [last])[k + 1..] == names[k + 1..] + [last];
  }

  lemma RunsFromStart(frames: seq<Frame>, i: nat)
    requires StillRuns(frames, i)
    ensures i < |frames| && StartsTool(frames[i])
  {
  }

  // A frame that is no edge of a tool, or ends one that is not running.
  lemma NothingEnds(frames: seq<Frame>, f: Frame, names: seq<string>, at: seq<nat>)
    requires Lists(frames, names, at) && Counted(frames, names, at)
    requires !f.Tool? || (f.edge.End? && f.name !in names)
    ensures Lists(frames + [f], names, at) && Counted(frames + [f], names, at)
  {
    var all := frames + [f];
    hide StillRuns, Since;
    forall k | 0 <= k < |at|
      ensures StillRuns(all, at[k]) && all[at[k]].name == names[k]
      ensures Since(all, at[k]) == ListedAfter(names, k, names[k]) && StartsTool(all[at[k]])
    {
      RunsFromStart(frames, at[k]);
      RunsAppend(frames, f, at[k]);
    }
    forall i | 0 <= i < |all| && StillRuns(all, i) ensures i in at {
      RunsFromStart(all, i);
      assert all[|frames|] == f;
      RunsAppend(frames, f, i);
    }
  }

  // An end closes the newest running tool of its name.
  lemma EndLeaves(frames: seq<Frame>, f: Frame, names: seq<string>, at: seq<nat>, m: nat)
    requires f.Tool? && f.edge.End? && Lists(frames, names, at) && Counted(frames, names, at)
    requires m < |names| && names[m] == f.name && f.name !in names[m + 1..]
    ensures Lists(frames + [f], names[..m] + names[m + 1..], at[..m] + at[m + 1..])
    ensures Counted(frames + [f], names[..m] + names[m + 1..], at[..m] + at[m + 1..])
  {
    var all, fewer, places := frames + [f], names[..m] + names[m + 1..], at[..m] + at[m + 1..];
    hide StillRuns, Since, ListedAfter, StartsTool;
    forall k | 0 <= k < |places|
      ensures StillRuns(all, places[k]) && all[places[k]].name == fewer[k] && StartsTool(all[places[k]])
      ensures Since(all, places[k]) == ListedAfter(fewer, k, fewer[k])
    {
      EndKeeps(frames, f, names, at, m, k);
    }
    forall i | 0 <= i < |all| && StillRuns(all, i) ensures i in places {
      EndedNoOther(frames, f, names, at, m, i);
    }
    Ascending(at, m);
  }

  lemma Ascending(at: seq<nat>, m: nat)
    requires m < |at| && forall k, n :: 0 <= k < n < |at| ==> at[k] < at[n]
    ensures var places := at[..m] + at[m + 1..]; forall k, n :: 0 <= k < n < |places| ==> places[k] < places[n]
  {
  }

  lemma EndKeeps(frames: seq<Frame>, f: Frame, names: seq<string>, at: seq<nat>, m: nat, k: nat)
    requires f.Tool? && f.edge.End? && Lists(frames, names, at) && Counted(frames, names, at)
    requires m < |names| && names[m] == f.name && f.name !in names[m + 1..] && k < |names| - 1
    ensures var fewer, place := names[..m] + names[m + 1..], (at[..m] + at[m + 1..])[k];
            && StillRuns(frames + [f], place) && (frames + [f])[place].name == fewer[k] && StartsTool((frames + [f])[place])
            && Since(frames + [f], place) == ListedAfter(fewer, k, fewer[k])
  {
    hide StillRuns, Since, ListedAfter, StartsTool;
    var was := if k < m then k else k + 1;
    assert (at[..m] + at[m + 1..])[k] == at[was] && (names[..m] + names[m + 1..])[k] == names[was];
    RunsFromStart(frames, at[was]);
    RunsAppend(frames, f, at[was]);
    AfterLeaves(names, k, m, names[was]);
    if k >= m {
      assert names[was] == names[m + 1..][k - m];
    }
  }

  lemma EndedNoOther(frames: seq<Frame>, f: Frame, names: seq<string>, at: seq<nat>, m: nat, i: nat)
    requires f.Tool? && f.edge.End? && Lists(frames, names, at) && Counted(frames, names, at)
    requires m < |names| && names[m] == f.name && f.name !in names[m + 1..]
    requires StillRuns(frames + [f], i)
    ensures i in at[..m] + at[m + 1..]
  {
    hide StillRuns, Since, ListedAfter;
    RunsFromStart(frames + [f], i);
    assert (frames + [f])[|frames|] == f;
    RunsAppend(frames, f, i);
    var k :| 0 <= k < |at| && at[k] == i;
    if k == m {
      NoneAfter(names, m);
    }
    var places := at[..m] + at[m + 1..];
    assert i == places[if k < m then k else k - 1];
  }

  lemma AfterLeaves(names: seq<string>, k: nat, m: nat, name: string)
    requires k < |names| - 1 && m < |names|
    ensures var fewer := names[..m] + names[m + 1..];
            if k < m then
              && ListedAfter(fewer, k, name) == ListedAfter(names, k, name) - (if name == names[m] then 1 else 0)
              && (name == names[m] ==> ListedAfter(names, k, name) > 0)
            else ListedAfter(fewer, k, name) == ListedAfter(names, k + 1, name)
  {
    var fewer := names[..m] + names[m + 1..];
    if k < m {
      assert names[k + 1..] == names[k + 1..m] + [names[m]] + names[m + 1..];
      assert fewer[k + 1..] == names[k + 1..m] + names[m + 1..];
    } else {
      assert fewer[k + 1..] == names[k + 2..];
    }
  }

  lemma NoneAfter(names: seq<string>, m: nat)
    requires m < |names| && names[m] !in names[m + 1..]
    ensures ListedAfter(names, m, names[m]) == 0
  {
  }

  // The open tools are those that still run, in the order they started.
  lemma {:induction false} OpenToolsStillRun(frames: seq<Frame>) returns (at: seq<nat>)
    ensures Lists(frames, TrackAll(frames).openTools, at)
    ensures Counted(frames, TrackAll(frames).openTools, at)
  {
    if |frames| == 0 {
      at := [];
    } else {
      hide Lists, Counted, TrackAll, Track;
      var init, last := frames[..|frames| - 1], frames[|frames| - 1];
      assert frames == init + [last];
      var before := OpenToolsStillRun(init);
      TrackAppends(init, last);
      at := OneMoreListed(init, last, TrackAll(init), before);
    }
  }

  lemma OneMoreListed(init: seq<Frame>, last: Frame, t: Tracked, before: seq<nat>) returns (at: seq<nat>)
    requires Lists(init, t.openTools, before) && Counted(init, t.openTools, before)
    ensures Lists(init + [last], Track(t, last).openTools, at)
    ensures Counted(init + [last], Track(t, last).openTools, at)
  {
    hide Lists, Counted, LastIndexOf;
    var names := t.openTools;
    if StartsTool(last) {
      StartJoins(init, last, names, before);
      at := before + [|init|];
    } else if last.Tool? && LastIndexOf(names, last.name) >= 0 {
      var m := LastIndexOf(names, last.name);
      ListsAsMany(init, names, before);
      EndLeaves(init, last, names, before, m);
      at := before[..m] + before[m + 1..];
    } else {
      NothingEnds(init, last, names, before);
      at := before;
    }
  }

  lemma ListsAsMany(frames: seq<Frame>, names: seq<string>, at: seq<nat>)
    requires Lists(frames, names, at)
    ensures |at| == |names|
  {
  }

  // ---- What a boot closes --------------------------------------------------------------

  // The frames that close what these leave open: the newest running tool first,
  // the turn last, with the next seqs.
  ghost predicate Closes(frames: seq<Frame>, at: seq<nat>, closing: seq<Frame>, next: nat) {
    && |closing| == |at| + (if InTurn(frames) then 1 else 0)
    && (forall k :: 0 <= k < |at| ==> ClosesAt(frames, at[|at| - 1 - k], closing[k], next + k))
    && (InTurn(frames) ==> closing[|at|] == Turn(End, next + |at|))
  }

  predicate ClosesAt(frames: seq<Frame>, i: nat, closing: Frame, n: nat) {
    i < |frames| && StartsTool(frames[i]) && closing == Tool(frames[i].name, End, n)
  }

  lemma {:induction false} ClosingIs(t: Tracked, n: nat)
    ensures var closing := Sequenced(Closing(t), n);
            && |closing| == |t.openTools| + (if t.turnOpen then 1 else 0)
            && (forall k :: 0 <= k < |t.openTools| ==> closing[k] == Tool(t.openTools[|t.openTools| - 1 - k], End, n + k))
            && (t.turnOpen ==> closing[|t.openTools|] == Turn(End, n + |t.openTools|))
    decreases |t.openTools|
  {
    if |t.openTools| > 0 {
      var last := |t.openTools| - 1;
      var rest := t.(openTools := t.openTools[..last]);
      ClosingIs(rest, n + 1);
      assert Closing(t)[0] == UTool(t.openTools[last], End) && Closing(t)[1..] == Closing(rest);
      var closing := Sequenced(Closing(t), n);
      assert closing == [Tool(t.openTools[last], End, n)] + Sequenced(Closing(rest), n + 1);
      hide Closing, Sequenced;
      forall k | 0 <= k < |t.openTools| ensures closing[k] == Tool(t.openTools[last - k], End, n + k) {
        if k > 0 { assert closing[k] == Sequenced(Closing(rest), n + 1)[k - 1]; }
      }
    } else if t.turnOpen {
      assert Sequenced(Closing(t), n) == [WithSeq(UTurn(End), n)] + Sequenced([], n + 1);
    }
  }

  lemma ClosingCloses(frames: seq<Frame>, next: nat) returns (at: seq<nat>)
    ensures Lists(frames, TrackAll(frames).openTools, at)
    ensures Closes(frames, at, Sequenced(Closing(TrackAll(frames)), next), next)
  {
    at := OpenToolsStillRun(frames);
    TurnIsOpen(frames);
    ClosingIs(TrackAll(frames), next);
    hide TrackAll, Sequenced, Closing, InTurn, StillRuns, StartsTool, Counted;
    ListedAreStarts(frames, TrackAll(frames).openTools, at);
  }

  lemma ListedAreStarts(frames: seq<Frame>, names: seq<string>, at: seq<nat>)
    requires Lists(frames, names, at)
    ensures |at| == |names|
    ensures forall k :: 0 <= k < |at| ==> at[k] < |frames| && StartsTool(frames[at[k]]) && frames[at[k]].name == names[k]
  {
    hide StillRuns;
    forall k | 0 <= k < |at| ensures at[k] < |frames| && StartsTool(frames[at[k]]) {
      RunsFromStart(frames, at[k]);
    }
  }

  lemma SettledIsClosed(frames: seq<Frame>)
    ensures Settled(TrackAll(frames)) <==> !InTurn(frames) && forall i: nat :: !StillRuns(frames, i)
  {
    var at := OpenToolsStillRun(frames);
    TurnIsOpen(frames);
    hide TrackAll, InTurn, StillRuns;
    if |at| > 0 {
      assert StillRuns(frames, at[0]);
    }
    forall i: nat | StillRuns(frames, i) ensures i < |frames| {
      RunsFromStart(frames, i);
    }
  }

  // A whole boot after any run, told from the frames it reads: it appends one end
  // for each tool still running, newest first, and exactly one end of turn when
  // the last turn frame is a start. Then the last turn frame held, if any, is an
  // end and no tool is running.
  lemma BootEndsWhatRuns(json: JsonText, b: Bounds, steps: seq<Step>, policy: Policy) returns (at: seq<nat>)
    requires Sound(json) && BoundsOk(b) && Legal(json, b, steps) && After(json, b, steps).log.None?
    requires PolicyOk(b, policy)
    requires var w := After(json, b, steps);
             var r := Reading(json, policy.keep, w.files).0;
             r.Ok? ==> LinesFit(json, b, Closing(r.value.tracked), |w.history| + 1)
    ensures var w := After(json, b, steps);
            var (r, files) := Reading(json, policy.keep, w.files);
            && r.Ok?
            && var (closed, mem, after) := AppendingAll(json, policy, r.value, files, Closing(r.value.tracked));
               var read := r.value.frames;
               && (forall k, m :: 0 <= k < m < |at| ==> at[k] < at[m])
               && (forall i: nat :: StillRuns(read, i) <==> i in at)
               && closed.Ok? && Closes(read, at, closed.value, |w.history| + 1) && mem.frames == read + closed.value
               && !InTurn(mem.frames) && (forall i: nat :: !StillRuns(mem.frames, i))
  {
    hide Legal, After, Reading, AppendingAll, Closing, TrackAll, Sequenced, Settled, LinesFit, InTurn, StillRuns, IsSuffix, Closes;
    BootSettles(json, b, steps, policy);
    var w := After(json, b, steps);
    CrashAndReload(json, b, steps, policy);
    var (r, files) := Reading(json, policy.keep, w.files);
    at := ClosingCloses(r.value.frames, |w.history| + 1);
    ListsExactly(r.value.frames, TrackAll(r.value.frames).openTools, at);
    SettledIsClosed(AppendingAll(json, policy, r.value, files, Closing(r.value.tracked)).1.frames);
  }

  lemma ListsExactly(frames: seq<Frame>, names: seq<string>, at: seq<nat>)
    requires Lists(frames, names, at)
    ensures forall i: nat :: StillRuns(frames, i) <==> i in at
    ensures forall k, m :: 0 <= k < m < |at| ==> at[k] < at[m]
  {
    hide StillRuns;
    forall i: nat | StillRuns(frames, i) ensures i in at {
      RunsFromStart(frames, i);
    }
  }
}
