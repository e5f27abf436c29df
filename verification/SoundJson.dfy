// The hypothesis the frame log makes of JSON text can be met: here is one text
// form of the frames it logs that meets it.
module SoundJson {
  import opened Outcomes
  import opened ChatFrames

  // ---- Numbers that end where they end ---------------------------------------

  function Unary(n: nat): string {
    if n == 0 then "." else "1" + Unary(n - 1)
  }

  lemma {:induction false} UnaryEnds(m: nat, n: nat, a: string, b: string)
    requires Unary(m) + a == Unary(n) + b
    ensures m == n && a == b
  {
    assert (Unary(m) + a)[0] == (Unary(n) + b)[0];
    if m == 0 || n == 0 {
      assert (Unary(m) + a)[1..] == a && (Unary(n) + b)[1..] == b;
    } else {
      assert (Unary(m) + a)[1..] == Unary(m - 1) + a && (Unary(n) + b)[1..] == Unary(n - 1) + b;
      UnaryEnds(m - 1, n - 1, a, b);
    }
  }

  function Spelled(tokens: seq<nat>): string {
    if |tokens| == 0 then "" else Unary(tokens[0]) + Spelled(tokens[1..])
  }

  function Spell(tokens: seq<nat>): string {
    Unary(|tokens|) + Spelled(tokens)
  }

  lemma {:induction false} SpelledEnds(s: seq<nat>, t: seq<nat>, a: string, b: string)
    requires |s| == |t| && Spelled(s) + a == Spelled(t) + b
    ensures s == t && a == b
  {
    if |s| == 0 {
      assert Spelled(s) + a == a && Spelled(t) + b == b;
    } else {
      assert Spelled(s) + a == Unary(s[0]) + (Spelled(s[1..]) + a);
      assert Spelled(t) + b == Unary(t[0]) + (Spelled(t[1..]) + b);
      UnaryEnds(s[0], t[0], Spelled(s[1..]) + a, Spelled(t[1..]) + b);
      SpelledEnds(s[1..], t[1..], a, b);
      assert s == [s[0]] + s[1..] && t == [t[0]] + t[1..];
    }
  }

  // No spelling starts another.
  lemma SpellEnds(s: seq<nat>, t: seq<nat>, a: string, b: string)
    requires Spell(s) + a == Spell(t) + b
    ensures s == t && a == b
  {
    assert Spell(s) + a == Unary(|s|) + (Spelled(s) + a) && Spell(t) + b == Unary(|t|) + (Spelled(t) + b);
    UnaryEnds(|s|, |t|, Spelled(s) + a, Spelled(t) + b);
    SpelledEnds(s, t, a, b);
  }

  lemma {:induction false} UnaryIsOneLine(n: nat)
    ensures '\n' !in Unary(n) && |Unary(n)| > 0
  {
    if n > 0 { UnaryIsOneLine(n - 1); }
  }

  lemma {:induction false} SpelledIsOneLine(tokens: seq<nat>)
    ensures '\n' !in Spelled(tokens)
  {
    if |tokens| > 0 {
      UnaryIsOneLine(tokens[0]);
      SpelledIsOneLine(tokens[1..]);
    }
  }

  // ---- Frames as numbers --------------------------------------------------------

  function TextTokens(s: string): seq<nat> {
    [|s|] + seq(|s|, i requires 0 <= i < |s| => s[i] as nat)
  }

  function MaybeTokens(n: Option<nat>): seq<nat> {
    if n.None? then [0] else [1, n.value]
  }

  function ChipTokens(chips: seq<Chip>): seq<nat> {
    if |chips| == 0 then [0]
    else
      [if chips[0].kind.File? then 1 else 2]
      + (TextTokens(chips[0].path) + (TextTokens(chips[0].name) + ChipTokens(chips[1..])))
  }

  function FlagToken(flag: Option<bool>): nat {
    if flag.None? then 0 else if flag.value then 1 else 2
  }

  function Tokens(f: Frame): seq<nat>
    requires LoggedKind(f)
  {
    match f
    case Ack(id, n) => [0, n] + TextTokens(id)
    case Delta(text, n) => [1, n] + TextTokens(text)
    case Tool(name, edge, n) => [if edge.Start? then 2 else 3, n] + TextTokens(name)
    case Turn(edge, n) => [if edge.Start? then 4 else 5, n]
    case Notice(text, n) => [6, n] + TextTokens(text)
    case User(text, id, epoch, attachments, n) =>
      [if attachments.None? then 7 else 8, n]
      + (TextTokens(text)
         + (TextTokens(id) + (MaybeTokens(epoch) + if attachments.None? then [] else ChipTokens(attachments.value))))
    case ErrorFrame(message, fatal, n) => [9, FlagToken(fatal)] + (TextTokens(message) + MaybeTokens(n))
  }

  lemma TextTokensEnd(s: string, t: string, a: seq<nat>, b: seq<nat>)
    requires TextTokens(s) + a == TextTokens(t) + b
    ensures s == t && a == b
  {
    var x, y := TextTokens(s) + a, TextTokens(t) + b;
    assert x[0] == |s| && y[0] == |t|;
    forall i | 0 <= i < |s| ensures s[i] == t[i] {
      assert x[i + 1] == s[i] as nat && y[i + 1] == t[i] as nat;
    }
    assert x[|s| + 1..] == a && y[|t| + 1..] == b;
  }

  lemma MaybeTokensEnd(m: Option<nat>, n: Option<nat>, a: seq<nat>, b: seq<nat>)
    requires MaybeTokens(m) + a == MaybeTokens(n) + b
    ensures m == n && a == b
  {
    var x, y := MaybeTokens(m) + a, MaybeTokens(n) + b;
    assert x[0] == y[0];
    if m.Some? { assert x[1] == y[1]; }
    assert x[|MaybeTokens(m)|..] == a && y[|MaybeTokens(n)|..] == b;
  }

  lemma {:induction false} ChipTokensEnd(s: seq<Chip>, t: seq<Chip>)
    requires ChipTokens(s) == ChipTokens(t)
    ensures s == t
  {
    assert ChipTokens(s)[0] == ChipTokens(t)[0];
    if |s| > 0 {
      var a, b := TextTokens(s[0].name) + ChipTokens(s[1..]), TextTokens(t[0].name) + ChipTokens(t[1..]);
      assert TextTokens(s[0].path) + a == ChipTokens(s)[1..] && TextTokens(t[0].path) + b == ChipTokens(t)[1..];
      TextTokensEnd(s[0].path, t[0].path, a, b);
      TextTokensEnd(s[0].name, t[0].name, ChipTokens(s[1..]), ChipTokens(t[1..]));
      ChipTokensEnd(s[1..], t[1..]);
      assert s == [s[0]] + s[1..] && t == [t[0]] + t[1..];
    }
  }

  lemma UserTokensApart(f: Frame, g: Frame)
    requires f.User? && g.User? && Tokens(f) == Tokens(g)
    ensures f == g
  {
    hide TextTokens, MaybeTokens, ChipTokens;
    var x, y := Tokens(f), Tokens(g);
    assert x[0] == y[0] && x[1] == y[1];
    var chipsOf := (u: Frame) requires u.User? => if u.attachments.None? then [] else ChipTokens(u.attachments.value);
    var a, b := MaybeTokens(f.epoch) + chipsOf(f), MaybeTokens(g.epoch) + chipsOf(g);
    assert x[2..] == TextTokens(f.text) + (TextTokens(f.clientMsgId) + a);
    assert y[2..] == TextTokens(g.text) + (TextTokens(g.clientMsgId) + b);
    TextTokensEnd(f.text, g.text, TextTokens(f.clientMsgId) + a, TextTokens(g.clientMsgId) + b);
    TextTokensEnd(f.clientMsgId, g.clientMsgId, a, b);
    MaybeTokensEnd(f.epoch, g.epoch, chipsOf(f), chipsOf(g));
    if f.attachments.Some? { ChipTokensEnd(f.attachments.value, g.attachments.value); }
  }

  lemma ErrorTokensApart(f: Frame, g: Frame)
    requires f.ErrorFrame? && g.ErrorFrame? && Tokens(f) == Tokens(g)
    ensures f == g
  {
    hide TextTokens, MaybeTokens;
    var x, y := Tokens(f), Tokens(g);
    assert x[1] == y[1];
    assert x[2..] == TextTokens(f.message) + MaybeTokens(f.maybeSeqNo);
    assert y[2..] == TextTokens(g.message) + MaybeTokens(g.maybeSeqNo);
    TextTokensEnd(f.message, g.message, MaybeTokens(f.maybeSeqNo), MaybeTokens(g.maybeSeqNo));
    assert MaybeTokens(f.maybeSeqNo) + [] == MaybeTokens(f.maybeSeqNo);
    assert MaybeTokens(g.maybeSeqNo) + [] == MaybeTokens(g.maybeSeqNo);
    MaybeTokensEnd(f.maybeSeqNo, g.maybeSeqNo, [], []);
  }

  function TextIn(f: Frame): string {
    match f
    case Ack(id, _) => id
    case Delta(text, _) => text
    case Tool(name, _, _) => name
    case Notice(text, _) => text
    case _ => ""
  }

  lemma TokensApart(f: Frame, g: Frame)
    requires LoggedKind(f) && LoggedKind(g) && Tokens(f) == Tokens(g)
    ensures f == g
  {
    hide TextTokens, MaybeTokens, ChipTokens;
    var x, y := Tokens(f), Tokens(g);
    assert x[0] == y[0] && x[1] == y[1];
    if f.User? {
      UserTokensApart(f, g);
    } else if f.ErrorFrame? {
      ErrorTokensApart(f, g);
    } else if !f.Turn? {
      assert x[2..] == TextTokens(TextIn(f)) && y[2..] == TextTokens(TextIn(g));
      assert TextTokens(TextIn(f)) + [] == TextTokens(TextIn(f)) && TextTokens(TextIn(g)) + [] == TextTokens(TextIn(g));
      TextTokensEnd(TextIn(f), TextIn(g), [], []);
    }
  }

  // ---- The text form -------------------------------------------------------------

  ghost predicate Spells(f: Frame, s: string) {
    Loggable(f) && Spell(Tokens(f)) == s
  }

  ghost function Stringified(v: Json): string {
    if v.JObj? && FrameOf(v.fields).Some? && LoggedKind(FrameOf(v.fields).value)
    then Spell(Tokens(FrameOf(v.fields).value))
    else ""
  }

  ghost function Parsed(s: string): Option<Json> {
    if exists f :: Spells(f, s) then
      var f :| Spells(f, s);
      Some(JObj(ObjectOf(f)))
    else None
  }

  lemma SpellsApart(f: Frame, g: Frame, s: string, rest: string)
    requires Spells(f, s) && Spells(g, s + rest)
    ensures f == g && rest == ""
  {
    assert Spell(Tokens(g)) + "" == s + rest;
    SpellEnds(Tokens(f), Tokens(g), rest, "");
    TokensApart(f, g);
  }

  lemma ParsesBack(f: Frame)
    requires Loggable(f)
    ensures Parsed(Spell(Tokens(f))) == Some(JObj(ObjectOf(f)))
    ensures forall k: nat :: k < |Spell(Tokens(f))| ==> Parsed(Spell(Tokens(f))[..k]).None?
  {
    hide Loggable, Tokens, Spell, ObjectOf;
    LoggableIsLogged(f);
    var s := Spell(Tokens(f));
    assert Spells(f, s);
    forall g | Spells(g, s) ensures g == f {
      assert s + "" == s;
      SpellsApart(g, f, s, "");
    }
    forall k: nat, g | k < |s| && Spells(g, s[..k]) ensures false {
      assert s[..k] + s[k..] == s;
      SpellsApart(g, f, s[..k], s[k..]);
    }
  }

  // What is assumed of the runtime's JSON text is not contradictory.
  lemma SoundJsonExists() returns (json: JsonText)
    ensures Sound(json)
  {
    json := JsonText(v => Stringified(v), s => Parsed(s));
    forall f | Loggable(f) ensures LineHolds(json, f) {
      hide Loggable, Tokens, Parsed, ObjectOf, FrameOf;
      LoggableIsLogged(f);
      ParsesBack(f);
      assert Line(json, f) == Spell(Tokens(f));
      UnaryIsOneLine(|Tokens(f)|);
      SpelledIsOneLine(Tokens(f));
    }
    assert Parsed("").None? by {
      forall f | Spells(f, "") ensures false {
        UnaryIsOneLine(|Tokens(f)|);
      }
    }
  }
}
