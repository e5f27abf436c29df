// What the `.npmrc` scan takes for a key, spelled out (src/redaction.ts).
module NpmrcKeys {
  import opened Outcomes
  import opened JavaScript
  import opened NpmrcScan

  ghost predicate Blank(s: string) {
    forall k :: 0 <= k < |s| ==> IsSpace(s[k])
  }

  // A key is one of three names, its `=`, and all the white space on either side.
  ghost predicate Spelled(s: string, name: string, before: string, after: string, rest: string) {
    && name in {":_authToken", ":_auth", ":_password"} && Blank(before) && Blank(after)
    && s == name + (before + ("=" + (after + rest))) && (rest != "" ==> !IsSpace(rest[0]))
  }

  lemma SpacesOf(blank: string, rest: string)
    requires Blank(blank) && (rest != "" ==> !IsSpace(rest[0]))
    ensures Spaces(blank + rest) == |blank|
  {
    SpacesIs(blank + rest, |blank|);
  }

  lemma NameOf(name: string, rest: string)
    requires name in {":_authToken", ":_auth", ":_password"} && rest != "" && rest[0] != 'T'
    ensures NameLength(name + rest) == |name|
  {
    var s := name + rest;
    assert name <= s && s[|name|] == rest[0];
    assert ":_authToken"[6] == 'T' && ":_authToken"[2] == 'a' && ":_auth"[2] == 'a' && ":_password"[2] == 'p';
    if name == ":_password" { assert s[2] == 'p'; }
  }

  lemma SpelledLength(s: string, name: string, before: string, after: string, rest: string)
    requires Spelled(s, name, before, after, rest)
    ensures KeyLength(s) == Some(|name| + |before| + 1 + |after|)
  {
    var value := after + rest;
    var tail := before + ("=" + value);
    TailStarts(before, value);
    NameOf(name, tail);
    hide NameLength, Blank;
    SpacesOf(before, "=" + value);
    SpacesOf(after, rest);
    hide Spaces;
    SplitsAt(name, tail);
    SplitsAt(before, "=" + value);
    assert s[|name| + |before|] == tail[|before|] == '=';
    assert s[|name| + |before| + 1..] == tail[|before| + 1..] == value;
  }

  lemma TailStarts(before: string, value: string)
    requires Blank(before)
    ensures before + ("=" + value) != "" && (before + ("=" + value))[0] != 'T'
  {
  }

  lemma SplitsAt(a: string, b: string)
    ensures (a + b)[|a|..] == b && (a + b)[..|a|] == a
  {
  }

  lemma NameIs(s: string)
    requires NameLength(s) > 0
    ensures s[..NameLength(s)] in {":_authToken", ":_auth", ":_password"}
  {
    if ":_authToken" <= s {
      assert s[..11] == ":_authToken";
    } else if ":_auth" <= s {
      assert s[..6] == ":_auth";
    } else {
      assert s[..10] == ":_password";
    }
  }

  lemma KeyIsSpelled(s: string) returns (name: string, before: string, after: string, rest: string)
    requires KeyLength(s).Some?
    ensures Spelled(s, name, before, after, rest)
  {
    NameIs(s);
    var n := NameLength(s);
    var tail := s[n..];
    var m := Spaces(tail);
    var value := tail[m + 1..];
    assert value == s[n + m + 1..] && tail[m] == s[n + m] == '=';
    hide NameLength, KeyLength;
    var l := Spaces(value);
    name, before, after, rest := s[..n], tail[..m], value[..l], value[l..];
    BlankPrefix(tail, m);
    BlankPrefix(value, l);
    hide Spaces, Blank;
    Rejoins(value, l);
    TailRejoins(tail, m);
    Rejoins(s, n);
  }

  lemma BlankPrefix(s: string, n: nat)
    requires n <= |s| && forall k :: 0 <= k < n ==> IsSpace(s[k])
    ensures Blank(s[..n])
  {
  }

  lemma Rejoins(s: string, n: nat)
    requires n <= |s|
    ensures s == s[..n] + s[n..]
  {
  }

  lemma TailRejoins(s: string, m: nat)
    requires m < |s| && s[m] == '='
    ensures s == s[..m] + ("=" + s[m + 1..])
  {
  }

  // A key starts a text exactly where one of the three is spelled out, and is
  // exactly as long as its spelling.
  lemma KeysAreSpelled(s: string)
    ensures KeyLength(s).Some? <==> exists name, before, after, rest :: Spelled(s, name, before, after, rest)
    ensures forall name, before, after, rest :: Spelled(s, name, before, after, rest) ==>
              KeyLength(s) == Some(|name| + |before| + 1 + |after|)
  {
    hide KeyLength, Spelled;
    forall name, before, after, rest | Spelled(s, name, before, after, rest)
      ensures KeyLength(s) == Some(|name| + |before| + 1 + |after|)
    {
      SpelledLength(s, name, before, after, rest);
    }
    if KeyLength(s).Some? {
      var name, before, after, rest := KeyIsSpelled(s);
    }
  }
}
