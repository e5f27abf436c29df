// The one-pass redaction of `.npmrc` registry credentials (src/redaction.ts):
// the loop that remembers where the last `//` and the last white space were,
// against the search backwards from each key that it replaces.
module NpmrcScan {
  import opened Outcomes
  import opened JavaScript

  const REDACTION_PLACEHOLDER: string := "[REDACTED]"

  // ---- Keys ------------------------------------------------------------------

  // How many characters of white space a text starts with.
  function Spaces(s: string): (n: nat)
    ensures n <= |s| && (n < |s| ==> !IsSpace(s[n]))
    ensures forall k :: 0 <= k < n ==> IsSpace(s[k])
  {
    if |s| > 0 && IsSpace(s[0]) then 1 + Spaces(s[1..]) else 0
  }

  // How many characters without white space a text starts with.
  function Solid(s: string): (n: nat)
    ensures n <= |s| && (n < |s| ==> IsSpace(s[n]))
    ensures forall k :: 0 <= k < n ==> !IsSpace(s[k])
  {
    if |s| > 0 && !IsSpace(s[0]) then 1 + Solid(s[1..]) else 0
  }

  // `:_authToken`, `:_auth` or `:_password` at the start of a text.
  function NameLength(s: string): (n: nat)
    ensures n <= |s| && n != 1
  {
    if ":_authToken" <= s then 11
    else if ":_auth" <= s then 6
    else if ":_password" <= s then 10
    else 0
  }

  // The key at the start of a text, with its `=` and the white space around it.
  function KeyLength(s: string): (r: Option<nat>)
    ensures r.Some? ==> 7 <= r.value <= |s| && (r.value < |s| ==> !IsSpace(s[r.value]))
  {
    var name := NameLength(s);
    var equals := name + Spaces(s[name..]);
    if name == 0 || equals == |s| || s[equals] != '=' then None
    else Some(equals + 1 + Spaces(s[equals + 1..]))
  }

  predicate IsKey(text: string, i: nat) {
    i <= |text| && KeyLength(text[i..]).Some?
  }

  function ValueAt(text: string, i: nat): (at: nat)
    requires IsKey(text, i)
    ensures i + 7 <= at <= |text| && (at < |text| ==> !IsSpace(text[at]))
  {
    i + KeyLength(text[i..]).value
  }

  // The next key at or after `from`, or the end of the text.
  function NextKey(text: string, from: nat): (i: nat)
    requires from <= |text|
    ensures from <= i <= |text| && (i < |text| ==> IsKey(text, i))
    ensures forall k :: from <= k < i ==> !IsKey(text, k)
    decreases |text| - from
  {
    if from == |text| || IsKey(text, from) then from else NextKey(text, from + 1)
  }

  // ---- The naive form ------------------------------------------------------------

  // A `//` earlier in the same run of characters that are no white space.
  predicate SlashesBefore(text: string, i: nat)
    requires i <= |text|
  {
    i > 0 && !IsSpace(text[i - 1]) && ((i > 1 && text[i - 1] == '/' && text[i - 2] == '/') || SlashesBefore(text, i - 1))
  }

  function ValueEnd(text: string, i: nat): (end: nat)
    requires IsKey(text, i)
    ensures ValueAt(text, i) <= end <= |text|
  {
    ValueAt(text, i) + Solid(text[ValueAt(text, i)..])
  }

  predicate Masked(text: string, i: nat) {
    IsKey(text, i) && SlashesBefore(text, i) && ValueEnd(text, i) > ValueAt(text, i)
  }

  // What the text from `i` on becomes, searching backwards afresh at each key.
  function Naive(text: string, i: nat): string
    requires i <= |text|
    decreases |text| - i
  {
    if i == |text| then ""
    else if Masked(text, i) then text[i..ValueAt(text, i)] + REDACTION_PLACEHOLDER + Naive(text, ValueEnd(text, i))
    else [text[i]] + Naive(text, i + 1)
  }

  // ---- The one-pass form -----------------------------------------------------------

  // A key holds one colon, at its start.
  lemma NameHasOneColon(s: string)
    ensures forall k :: 0 < k < NameLength(s) ==> s[k] != ':' && !IsSpace(s[k])
    ensures NameLength(s) > 0 ==> s[0] == ':'
  {
    assert forall k :: 0 <= k < 11 ==> ":_authToken"[k] == [':', '_', 'a', 'u', 't', 'h', 'T', 'o', 'k', 'e', 'n'][k];
    assert forall k :: 0 <= k < 10 ==> ":_password"[k] == [':', '_', 'p', 'a', 's', 's', 'w', 'o', 'r', 'd'][k];
  }

  lemma NoKeyInsideKey(text: string, i: nat, k: nat)
    requires IsKey(text, i) && i < k < ValueAt(text, i)
    ensures !IsKey(text, k)
  {
    var s := text[i..];
    NameHasOneColon(s);
    assert s[k - i] == text[k] && text[k] != ':';
    NameHasOneColon(text[k..]);
  }

  lemma NaiveEnds(text: string)
    ensures Naive(text, |text|) == ""
  {
  }

  lemma NaiveStep(text: string, i: nat)
    requires i < |text|
    ensures Naive(text, i)
         == if Masked(text, i) then text[i..ValueAt(text, i)] + REDACTION_PLACEHOLDER + Naive(text, ValueEnd(text, i))
            else [text[i]] + Naive(text, i + 1)
  {
  }

  lemma {:induction false} NaiveCopies(text: string, i: nat, p: nat)
    requires i <= p <= |text| && forall k :: i <= k < p ==> !Masked(text, k)
    ensures Naive(text, i) == text[i..p] + Naive(text, p)
    decreases p - i
  {
    hide Masked, Naive;
    if i < p {
      NaiveCopies(text, i + 1, p);
      NaiveStep(text, i);
      assert text[i..p] == [text[i]] + text[i + 1..p];
      var rest := Naive(text, p);
      assert [text[i]] + (text[i + 1..p] + rest) == [text[i]] + text[i + 1..p] + rest;
    }
  }

  lemma IsMaskedKey(text: string, i: nat)
    requires Masked(text, i)
    ensures IsKey(text, i)
  {
  }

  lemma NaiveMasks(text: string, copied: nat, i: nat, out: string)
    requires copied <= i < |text| && Masked(text, i) && forall k :: copied <= k < i ==> !Masked(text, k)
    ensures out + Naive(text, copied)
         == out + (text[copied..ValueAt(text, i)] + REDACTION_PLACEHOLDER) + Naive(text, ValueEnd(text, i))
  {
    hide Naive, Masked;
    NaiveCopies(text, copied, i);
    NaiveStep(text, i);
    IsMaskedKey(text, i);
    assert text[copied..ValueAt(text, i)] == text[copied..i] + text[i..ValueAt(text, i)];
    Regroup(out, text[copied..i], text[i..ValueAt(text, i)], Naive(text, ValueEnd(text, i)));
  }

  lemma Regroup(out: string, before: string, key: string, rest: string)
    ensures out + (before + (key + REDACTION_PLACEHOLDER + rest)) == out + (before + key + REDACTION_PLACEHOLDER) + rest
  {
  }

  // Moves the scan up to a key, remembering the last `//` and the last white space.
  method ScanTo(text: string, index: nat, seenBefore: nat, slashesBefore: int, spaceBefore: int)
    returns (slashes: int, space: int, ghost looks: nat)
    requires seenBefore <= index <= |text| && -1 <= slashesBefore < seenBefore && -1 <= spaceBefore < seenBefore
    requires slashesBefore > spaceBefore <==> SlashesBefore(text, seenBefore)
    ensures -1 <= slashes < index && -1 <= space < index
    ensures slashes > space <==> SlashesBefore(text, index)
    ensures looks == index - seenBefore
  {
    slashes, space, looks := slashesBefore, spaceBefore, 0;
    for seen := seenBefore to index
      invariant -1 <= slashes < seen && -1 <= space < seen
      invariant slashes > space <==> SlashesBefore(text, seen)
      invariant looks == seen - seenBefore
    {
      if IsSpace(text[seen]) {
        space := seen;
      } else if text[seen] == '/' && seen > 0 && text[seen - 1] == '/' {
        slashes := seen;
      }
      looks := looks + 1;
    }
  }

  lemma {:induction false} SolidIs(s: string, n: nat)
    requires n <= |s| && (n < |s| ==> IsSpace(s[n])) && forall k :: 0 <= k < n ==> !IsSpace(s[k])
    ensures Solid(s) == n
  {
    if n > 0 { SolidIs(s[1..], n - 1); }
  }

  // Where the value that starts here ends.
  method ScanValue(text: string, valueAt: nat) returns (valueEnd: nat, ghost looks: nat)
    requires valueAt <= |text|
    ensures valueEnd == valueAt + Solid(text[valueAt..])
    ensures looks == valueEnd - valueAt + (if valueEnd < |text| then 1 else 0)
  {
    valueEnd, looks := valueAt, 0;
    while valueEnd < |text| && !IsSpace(text[valueEnd])
      invariant valueAt <= valueEnd <= |text|
      invariant forall k :: valueAt <= k < valueEnd ==> !IsSpace(text[k])
      invariant looks == valueEnd - valueAt
    {
      valueEnd := valueEnd + 1;
      looks := looks + 1;
    }
    looks := if valueEnd < |text| then looks + 1 else looks;
    SolidIs(text[valueAt..], valueEnd - valueAt);
  }

  method RedactNpmrcAuth(text: string) returns (r: string, ghost looks: nat)
    ensures r == Naive(text, 0)
    ensures looks <= 2 * |text|
  {
    hide Naive, Solid, KeyLength;
    var out := "";
    var copied: nat, seen: nat, next: nat := 0, 0, 0;
    var slashes, space := -1, -1;
    looks := 0;
    while next < |text|
      invariant next <= |text| && copied <= |text| && seen <= next
      invariant -1 <= slashes < seen && -1 <= space < seen
      invariant slashes > space <==> SlashesBefore(text, seen)
      invariant Naive(text, 0) == out + Naive(text, copied)
      invariant forall k :: copied <= k < next ==> !Masked(text, k)
      invariant looks <= seen + copied
      decreases |text| - next
    {
      var index := NextKey(text, next);
      if index == |text| {
        next := index;
        break;
      }
      var valueAt := ValueAt(text, index);
      forall k | index < k < valueAt ensures !Masked(text, k) {
        NoKeyInsideKey(text, index, k);
      }
      next := valueAt;
      if index < copied {
        continue;
      }
      ghost var scanned;
      slashes, space, scanned := ScanTo(text, index, seen, slashes, space);
      seen, looks := index, looks + scanned;
      if slashes <= space {
        continue;
      }
      var valueEnd;
      valueEnd, scanned := ScanValue(text, valueAt);
      looks := looks + scanned;
      assert valueAt < |text| ==> text[valueAt..][0] == text[valueAt];
      if valueEnd == valueAt {
        continue;
      }
      NaiveMasks(text, copied, index, out);
      out := out + (text[copied..valueAt] + REDACTION_PLACEHOLDER);
      copied := valueEnd;
    }
    NaiveCopies(text, copied, |text|);
    NaiveEnds(text);
    assert text[copied..|text|] == text[copied..];
    r := out + text[copied..];
  }

  // ---- Redacting twice ------------------------------------------------------------

  // The same form read off what is left of the text: whether a `//` was seen in
  // this run, and whether the last character was a slash.
  function Mask(s: string, armed: bool, slash: bool): string
    decreases |s|
  {
    var key := KeyLength(s);
    if |s| == 0 then ""
    else if armed && key.Some? && Solid(s[key.value..]) > 0 then
      s[..key.value] + REDACTION_PLACEHOLDER + Mask(s[key.value + Solid(s[key.value..])..], false, false)
    else [s[0]] + Mask(s[1..], Armed(s[0], armed, slash), s[0] == '/')
  }

  predicate Breaks(s: string) {
    |s| == 0 || IsSpace(s[0])
  }

  // A break forgets what came before it.
  lemma MaskAtBreak(s: string, armed: bool, slash: bool)
    requires Breaks(s)
    ensures Mask(s, armed, slash) == Mask(s, false, false) && Breaks(Mask(s, armed, slash))
    ensures s != "" ==> Mask(s, armed, slash)[0] == s[0]
  {
    NameHasOneColon(s);
  }

  lemma MaskedSuffix(text: string, i: nat)
    requires i < |text|
    ensures Masked(text, i) <==> MaskedHere(text[i..], SlashesBefore(text, i))
    ensures Masked(text, i) ==>
              var at, end := ValueAt(text, i), ValueEnd(text, i);
              && KeyLength(text[i..]) == Some(at - i) && Solid(text[i..][at - i..]) == end - at
              && text[i..][..at - i] == text[i..at] && text[i..][end - i..] == text[end..]
              && end > i && Breaks(text[end..])
  {
    hide KeyLength, Solid;
    var s := text[i..];
    if IsKey(text, i) {
      var at, end := ValueAt(text, i), ValueEnd(text, i);
      assert s[KeyLength(s).value..] == text[at..];
      assert end < |text| ==> text[at..][end - at] == text[end];
    }
  }

  function Armed(c: char, armed: bool, slash: bool): bool {
    !IsSpace(c) && (armed || (slash && c == '/'))
  }

  predicate MaskedHere(s: string, armed: bool) {
    armed && KeyLength(s).Some? && Solid(s[KeyLength(s).value..]) > 0
  }

  lemma MaskPlain(s: string, armed: bool, slash: bool)
    requires |s| > 0 && !MaskedHere(s, armed)
    ensures Mask(s, armed, slash) == [s[0]] + Mask(s[1..], Armed(s[0], armed, slash), s[0] == '/')
  {
  }

  lemma MaskKey(s: string, armed: bool, slash: bool, k: nat, v: nat)
    requires |s| > 0 && MaskedHere(s, armed) && KeyLength(s) == Some(k) && Solid(s[k..]) == v
    ensures k + v <= |s| && Mask(s, armed, slash) == s[..k] + REDACTION_PLACEHOLDER + Mask(s[k + v..], false, false)
  {
    hide KeyLength, Solid, REDACTION_PLACEHOLDER;
  }

  lemma {:induction false} NaiveIsMask(text: string, i: nat)
    requires i <= |text|
    ensures Naive(text, i) == Mask(text[i..], SlashesBefore(text, i), i > 0 && text[i - 1] == '/')
    decreases |text| - i
  {
    if i == |text| {
      NaiveEnds(text);
    } else if Masked(text, i) {
      NaiveIsMask(text, ValueEnd(text, i));
      KeyIsMasked(text, i);
    } else {
      hide KeyLength, Solid, Masked, MaskedHere, Naive, Mask, SlashesBefore;
      NaiveIsMask(text, i + 1);
      MaskedSuffix(text, i);
      NaiveStep(text, i);
      MaskPlain(text[i..], SlashesBefore(text, i), i > 0 && text[i - 1] == '/');
      SlashesStep(text, i);
      assert text[i..][1..] == text[i + 1..];
    }
  }

  lemma KeyIsMasked(text: string, i: nat)
    requires i < |text| && Masked(text, i)
    requires var end := ValueEnd(text, i);
             Naive(text, end) == Mask(text[end..], SlashesBefore(text, end), end > 0 && text[end - 1] == '/')
    ensures Naive(text, i) == Mask(text[i..], SlashesBefore(text, i), i > 0 && text[i - 1] == '/')
  {
    hide KeyLength, Solid, MaskedHere, Naive, Mask, SlashesBefore;
    var at, end := ValueAt(text, i), ValueEnd(text, i);
    MaskedSuffix(text, i);
    NaiveStep(text, i);
    MaskAtBreak(text[end..], SlashesBefore(text, end), end > 0 && text[end - 1] == '/');
    MaskKey(text[i..], SlashesBefore(text, i), i > 0 && text[i - 1] == '/', at - i, end - at);
    assert Mask(text[i..], SlashesBefore(text, i), i > 0 && text[i - 1] == '/')
        == text[i..at] + REDACTION_PLACEHOLDER + Mask(text[end..], false, false);
  }

  lemma SlashesStep(text: string, i: nat)
    requires i < |text|
    ensures SlashesBefore(text, i + 1) == Armed(text[i], SlashesBefore(text, i), i > 0 && text[i - 1] == '/')
  {
  }

  // ---- Where keys are, before and after masking --------------------------------------

  // Up to its first colon a masked text is the text itself.
  lemma {:induction false} MaskKeepsHead(s: string, armed: bool, slash: bool, n: nat)
    requires n <= |Mask(s, armed, slash)| && forall k :: 0 <= k < n ==> Mask(s, armed, slash)[k] != ':'
    ensures n <= |s| && s[..n] == Mask(s, armed, slash)[..n]
    decreases |s|
  {
    hide Mask, Armed;
    EmptyMask(armed, slash);
    if n > 0 {
      MaskStartsAs(s, armed, slash);
      var rest := Mask(s[1..], Armed(s[0], armed, slash), s[0] == '/');
      assert forall k :: 0 <= k < n - 1 ==> rest[k] == Mask(s, armed, slash)[k + 1];
      MaskKeepsHead(s[1..], Armed(s[0], armed, slash), s[0] == '/', n - 1);
      HeadsMatch(s, rest, n - 1);
    }
  }

  lemma HeadsMatch(s: string, rest: string, n: nat)
    requires 0 < |s| && n <= |rest| && n <= |s| - 1 && s[1..][..n] == rest[..n]
    ensures s[..n + 1] == ([s[0]] + rest)[..n + 1]
  {
    assert s[..n + 1] == [s[0]] + s[1..][..n];
    assert ([s[0]] + rest)[..n + 1] == [s[0]] + rest[..n];
  }

  lemma EmptyMask(armed: bool, slash: bool)
    ensures Mask("", armed, slash) == ""
  {
  }

  lemma MaskStartsAs(s: string, armed: bool, slash: bool)
    requires |s| > 0
    ensures |Mask(s, armed, slash)| > 0 && Mask(s, armed, slash)[0] == s[0]
    ensures s[0] != ':' ==> Mask(s, armed, slash) == [s[0]] + Mask(s[1..], Armed(s[0], armed, slash), s[0] == '/')
  {
    hide Solid, REDACTION_PLACEHOLDER;
    NameHasOneColon(s);
  }

  // A key up to and with its equals sign.
  function KeyCore(s: string): Option<nat> {
    var name := NameLength(s);
    var equals := name + Spaces(s[name..]);
    if name == 0 || equals == |s| || s[equals] != '=' then None else Some(equals + 1)
  }

  lemma {:induction false} SpacesIs(s: string, n: nat)
    requires n <= |s| && (n < |s| ==> !IsSpace(s[n])) && forall k :: 0 <= k < n ==> IsSpace(s[k])
    ensures Spaces(s) == n
  {
    if n > 0 { SpacesIs(s[1..], n - 1); }
  }

  lemma CoreIsAPrefix(s: string, t: string)
    requires KeyCore(s).Some? && KeyCore(s).value <= |t| && t[..KeyCore(s).value] == s[..KeyCore(s).value]
    ensures KeyCore(t) == KeyCore(s)
  {
    var c, name := KeyCore(s).value, NameLength(s);
    assert forall k :: 0 <= k < c ==> t[k] == t[..c][k] == s[k];
    assert NameLength(t) == name by { NamesAgree(s, t, c); }
    assert forall k :: 0 <= k < c - 1 - name ==> t[name..][k] == s[name..][k];
    SpacesIs(t[name..], c - 1 - name);
  }

  lemma NamesAgree(s: string, t: string, c: nat)
    requires KeyCore(s) == Some(c) && c <= |t| && forall k :: 0 <= k < c ==> t[k] == s[k]
    ensures NameLength(t) == NameLength(s)
  {
    assert s[NameLength(s)] == '=' || IsSpace(s[NameLength(s)]) by {
      var n := Spaces(s[NameLength(s)..]);
      assert n > 0 ==> IsSpace(s[NameLength(s)..][0]);
    }
  }

  lemma CoreOfKey(s: string)
    ensures KeyLength(s).Some? <==> KeyCore(s).Some?
    ensures KeyCore(s).Some? ==>
              && 7 <= KeyCore(s).value <= KeyLength(s).value
              && (forall k :: 0 < k < KeyLength(s).value ==> s[k] != ':')
              && (forall k :: KeyCore(s).value <= k < KeyLength(s).value ==> IsSpace(s[k]))
  {
    NameHasOneColon(s);
    if KeyCore(s).Some? {
      var name, c := NameLength(s), KeyCore(s).value;
      forall k | 0 < k < KeyLength(s).value ensures s[k] != ':' {
        if name <= k < c - 1 {
          assert s[k] == s[name..][k - name];
        } else if k >= c {
          assert s[k] == s[c..][k - c];
        }
      }
      forall k | c <= k < KeyLength(s).value ensures IsSpace(s[k]) {
        assert s[k] == s[c..][k - c];
      }
    }
  }

  // Masking what follows neither makes nor breaks a key.
  lemma NoNewKey(s: string, armed: bool, slash: bool)
    requires |s| > 0 && KeyLength(s).None?
    ensures KeyLength([s[0]] + Mask(s[1..], armed, slash)).None?
  {
    hide Mask, KeyLength, KeyCore;
    var rest := Mask(s[1..], armed, slash);
    var t := [s[0]] + rest;
    CoreOfKey(s);
    CoreOfKey(t);
    if KeyCore(t).Some? {
      var c := KeyCore(t).value;
      assert forall k :: 0 <= k < c - 1 ==> rest[k] == t[k + 1];
      MaskKeepsHead(s[1..], armed, slash, c - 1);
      assert s[..c] == [s[0]] + s[1..][..c - 1] == t[..c];
      CoreIsAPrefix(t, s);
    }
  }

  lemma KeyIs(s: string, c: nat, k: nat)
    requires KeyCore(s) == Some(c) && c <= k <= |s| && (k < |s| ==> !IsSpace(s[k]))
    requires forall i :: c <= i < k ==> IsSpace(s[i])
    ensures KeyLength(s) == Some(k)
  {
    assert forall i :: 0 <= i < k - c ==> s[c..][i] == s[c + i];
    SpacesIs(s[c..], k - c);
  }

  // The key of a masked value is still there, and its value is the placeholder.
  lemma SameKeyAgain(s: string, rest: string)
    requires KeyLength(s).Some? && Breaks(rest)
    ensures var k := KeyLength(s).value;
            var t := s[..k] + (REDACTION_PLACEHOLDER + rest);
            KeyLength(t) == Some(k) && t[..k] == s[..k] && t[k..] == REDACTION_PLACEHOLDER + rest
  {
    hide KeyLength, KeyCore, IsSpace;
    CoreOfKey(s);
    var k, c := KeyLength(s).value, KeyCore(s).value;
    var t := s[..k] + (REDACTION_PLACEHOLDER + rest);
    assert forall i :: 0 <= i < k ==> t[i] == s[i];
    CoreIsAPrefix(s, t);
    assert t[k] == '[' && !IsSpace('[') by { BracketIsSolid(); }
    KeyIs(t, c, k);
  }

  lemma BracketIsSolid()
    ensures !IsSpace('[')
  {
  }

  lemma PlaceholderIsSolid(rest: string)
    requires Breaks(rest)
    ensures Solid(REDACTION_PLACEHOLDER + rest) == |REDACTION_PLACEHOLDER|
    ensures (REDACTION_PLACEHOLDER + rest)[|REDACTION_PLACEHOLDER|..] == rest
  {
    var t := REDACTION_PLACEHOLDER + rest;
    forall k | 0 <= k < |REDACTION_PLACEHOLDER| ensures !IsSpace(t[k]) {
      assert t[k] == ['[', 'R', 'E', 'D', 'A', 'C', 'T', 'E', 'D', ']'][k];
    }
    SolidIs(t, |REDACTION_PLACEHOLDER|);
  }

  // A key whose value is empty ends the text, and nothing after its colon is a key.
  lemma BareKeyStays(s: string, armed: bool, slash: bool, n: nat)
    requires n <= |s| && forall k :: n <= k < |s| ==> s[k] != ':'
    ensures Mask(s[n..], armed, slash) == s[n..]
    decreases |s| - n
  {
    hide Mask, Armed;
    EmptyMask(armed, slash);
    if n < |s| {
      var rest := s[n..];
      MaskStartsAs(rest, armed, slash);
      BareKeyStays(s, Armed(rest[0], armed, slash), rest[0] == '/', n + 1);
      assert rest[1..] == s[n + 1..] && rest == [rest[0]] + rest[1..];
    }
  }

  lemma BareKeyEnds(s: string)
    requires KeyLength(s).Some? && Solid(s[KeyLength(s).value..]) == 0
    ensures KeyLength(s).value == |s|
  {
  }

  lemma UnmaskedStays(s: string, armed: bool, slash: bool)
    requires |s| > 0 && !MaskedHere(s, armed)
    ensures !MaskedHere([s[0]] + Mask(s[1..], Armed(s[0], armed, slash), s[0] == '/'), armed)
  {
    hide Mask, Armed, KeyCore;
    if armed && KeyLength(s).Some? {
      BareKeyEnds(s);
      CoreOfKey(s);
      BareKeyStays(s, Armed(s[0], armed, slash), s[0] == '/', 1);
      assert [s[0]] + s[1..] == s;
    } else if KeyLength(s).None? {
      NoNewKey(s, Armed(s[0], armed, slash), s[0] == '/');
    }
  }

  lemma {:induction false} MaskTwice(s: string, armed: bool, slash: bool)
    ensures Mask(Mask(s, armed, slash), armed, slash) == Mask(s, armed, slash)
    decreases |s|
  {
    hide Mask, MaskedHere, Armed, Solid, KeyLength, REDACTION_PLACEHOLDER;
    EmptyMask(armed, slash);
    if s == "" {
    } else if MaskedHere(s, armed) {
      MaskedTwice(s, armed, slash);
    } else {
      MaskPlain(s, armed, slash);
      var rest := Mask(s[1..], Armed(s[0], armed, slash), s[0] == '/');
      MaskTwice(s[1..], Armed(s[0], armed, slash), s[0] == '/');
      UnmaskedStays(s, armed, slash);
      MaskPlain([s[0]] + rest, armed, slash);
      assert ([s[0]] + rest)[1..] == rest;
    }
  }

  lemma {:induction false} MaskedTwice(s: string, armed: bool, slash: bool)
    requires |s| > 0 && MaskedHere(s, armed)
    ensures Mask(Mask(s, armed, slash), armed, slash) == Mask(s, armed, slash)
    decreases |s|, 0
  {
    hide Mask, Armed, Solid, KeyLength, REDACTION_PLACEHOLDER, Breaks;
    var k := KeyLength(s).value;
    var v := Solid(s[k..]);
    SolidThenBreak(s, k);
    MaskKey(s, armed, slash, k, v);
    MaskAtBreak(s[k + v..], false, false);
    MaskTwice(s[k + v..], false, false);
    var rest := Mask(s[k + v..], false, false);
    SameKeyAgain(s, rest);
    MaskAgain(s[..k], rest, armed, slash);
    assert s[..k] + REDACTION_PLACEHOLDER + rest == s[..k] + (REDACTION_PLACEHOLDER + rest);
    ArmedWhenMasked(s, armed);
  }

  lemma SolidThenBreak(s: string, k: nat)
    requires k <= |s|
    ensures Breaks(s[k + Solid(s[k..])..])
  {
    hide Solid;
    var v := Solid(s[k..]);
    assert k + v < |s| ==> s[k..][v] == s[k + v];
  }

  lemma ArmedWhenMasked(s: string, armed: bool)
    requires MaskedHere(s, armed)
    ensures armed
  {
  }

  lemma MaskAgain(key: string, rest: string, armed: bool, slash: bool)
    requires Breaks(rest) && Mask(rest, false, false) == rest
    requires KeyLength(key + (REDACTION_PLACEHOLDER + rest)) == Some(|key|)
    ensures armed ==> Mask(key + (REDACTION_PLACEHOLDER + rest), armed, slash) == key + (REDACTION_PLACEHOLDER + rest)
  {
    hide Mask, Solid, KeyLength, REDACTION_PLACEHOLDER, Breaks;
    var k := |key|;
    var t := key + (REDACTION_PLACEHOLDER + rest);
    PlaceholderIsSolid(rest);
    PlaceholderCounts();
    assert t[..k] == key && t[k..] == REDACTION_PLACEHOLDER + rest;
    if armed {
      MaskKey(t, armed, slash, k, |REDACTION_PLACEHOLDER|);
      assert t[k + |REDACTION_PLACEHOLDER|..] == t[k..][|REDACTION_PLACEHOLDER|..] == rest;
      assert key + REDACTION_PLACEHOLDER + rest == t;
    }
  }

  lemma PlaceholderCounts()
    ensures |REDACTION_PLACEHOLDER| > 0
  {
  }

  // Redacting what is already redacted changes nothing.
  lemma RedactionIsIdempotent(text: string)
    ensures Naive(Naive(text, 0), 0) == Naive(text, 0)
  {
    NaiveIsMask(text, 0);
    NaiveIsMask(Naive(text, 0), 0);
    MaskTwice(text, false, false);
    assert text[0..] == text && Naive(text, 0)[0..] == Naive(text, 0);
  }
}
