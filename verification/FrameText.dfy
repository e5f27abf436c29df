// Lines of a text file, as the frame log splits and rejoins them.
module FrameText {

  // The lines of a text; a final newline ends the last line and starts no other.
  function Lines(text: string): seq<string> {
    var end := LineEnd(text);
    if |text| == 0 then []
    else if end == |text| then [text]
    else [text[..end]] + Lines(text[end + 1..])
  }

  function LineEnd(text: string): (end: nat)
    ensures end <= |text|
    ensures end < |text| ==> text[end] == '\n'
    ensures '\n' !in text[..end]
  {
    if |text| == 0 || text[0] == '\n' then 0
    else
      var rest := LineEnd(text[1..]);
      assert text[..rest + 1] == [text[0]] + text[1..][..rest];
      rest + 1
  }

  function Unlines(lines: seq<string>): string {
    if |lines| == 0 then "" else lines[0] + "\n" + Unlines(lines[1..])
  }

  predicate EndsLine(text: string) {
    |text| > 0 && text[|text| - 1] == '\n'
  }

  // What follows the last newline.
  function Tail(text: string): string {
    if |text| == 0 || EndsLine(text) then "" else Tail(text[..|text| - 1]) + [text[|text| - 1]]
  }

  ghost predicate OneLine(line: string) {
    '\n' !in line
  }

  ghost predicate OneLineEach(lines: seq<string>) {
    forall i :: 0 <= i < |lines| ==> OneLine(lines[i])
  }

  lemma {:induction false} LineEndAt(text: string, k: nat)
    requires k <= |text| && OneLine(text[..k]) && (k == |text| || text[k] == '\n')
    ensures LineEnd(text) == k
  {
    if k > 0 {
      assert text[..k][0] == text[0];
      assert text[1..][..k - 1] == text[..k][1..];
      LineEndAt(text[1..], k - 1);
    }
  }

  lemma LinesStep(line: string, rest: string)
    requires OneLine(line)
    ensures Lines(line + "\n" + rest) == [line] + Lines(rest)
  {
    var text := line + "\n" + rest;
    assert text[..|line|] == line && text[|line| + 1..] == rest;
    LineEndAt(text, |line|);
  }

  // Complete lines followed by an unfinished one split into exactly those.
  lemma {:induction false} LinesOfText(lines: seq<string>, tail: string)
    requires OneLineEach(lines) && OneLine(tail)
    ensures Lines(Unlines(lines) + tail) == if tail == "" then lines else lines + [tail]
  {
    if |lines| == 0 {
      assert tail[..|tail|] == tail;
      LineEndAt(tail, |tail|);
      assert Unlines(lines) + tail == tail;
    } else {
      hide Lines;
      LinesOfText(lines[1..], tail);
      LinesStep(lines[0], Unlines(lines[1..]) + tail);
      assert Unlines(lines) + tail == lines[0] + "\n" + (Unlines(lines[1..]) + tail);
      assert lines == [lines[0]] + lines[1..];
    }
  }

  lemma {:induction false} UnlinesAppend(a: seq<string>, b: seq<string>)
    ensures Unlines(a + b) == Unlines(a) + Unlines(b)
  {
    if |a| == 0 {
      assert a + b == b;
    } else {
      UnlinesAppend(a[1..], b);
      assert (a + b)[0] == a[0] && (a + b)[1..] == a[1..] + b;
      assert a[0] + "\n" + (Unlines(a[1..]) + Unlines(b)) == a[0] + "\n" + Unlines(a[1..]) + Unlines(b);
    }
  }

  lemma UnlinesOne(line: string)
    ensures Unlines([line]) == line + "\n"
  {
    assert [line][1..] == [];
  }

  lemma {:induction false} UnlinesEnds(lines: seq<string>)
    ensures |lines| > 0 <==> Unlines(lines) != ""
    ensures |lines| > 0 ==> EndsLine(Unlines(lines))
  {
    if |lines| > 0 {
      UnlinesEnds(lines[1..]);
    }
  }

  lemma {:induction false} TailIs(text: string, tail: string)
    requires (text == "" || EndsLine(text)) && OneLine(tail)
    ensures Tail(text + tail) == tail
  {
    if tail == "" {
      assert text + tail == text;
    } else {
      var init := tail[..|tail| - 1];
      assert tail == init + [tail[|tail| - 1]];
      assert (text + tail)[..|text + tail| - 1] == text + init;
      assert tail[|tail| - 1] in tail;
      TailIs(text, init);
    }
  }
}
