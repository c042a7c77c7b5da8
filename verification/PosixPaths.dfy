/** Slash-separated names and their parts, as PurePosixPath reads them. */
module PosixPaths {

  type Parts = seq<string>

  predicate IsComponent(part: string) { part != "" && part != "." && '/' !in part }

  /** The characters before the first slash. */
  function FirstSlash(s: string): (n: nat)
    ensures n <= |s| && '/' !in s[..n] && (n < |s| ==> s[n] == '/')
  {
    if s == "" || s[0] == '/' then 0 else
      var n := 1 + FirstSlash(s[1..]);
      assert s[..n] == [s[0]] + s[1..][..n - 1];
      n
  }

  /** The parts of a name; empty parts and "." are dropped. */
  function PartsOf(s: string): (parts: Parts)
    ensures forall part | part in parts :: IsComponent(part)
    decreases |s|
  {
    var n := FirstSlash(s);
    var first := if IsComponent(s[..n]) then [s[..n]] else [];
    if n == |s| then first else first + PartsOf(s[n + 1..])
  }

  /** as_posix for a relative path */
  function Joined(parts: Parts): string {
    if parts == [] then "" else if |parts| == 1 then parts[0] else parts[0] + "/" + Joined(parts[1..])
  }

  predicate IsAbsolute(s: string) { s != "" && s[0] == '/' }

  /** rstrip("/") */
  function StripSlashes(s: string): string {
    if s != "" && s[|s| - 1] == '/' then StripSlashes(s[..|s| - 1]) else s
  }

  /** A name that stays inside the directory it is extracted to, written in the normal way. */
  predicate IsSafe(s: string): (safe: bool)
    ensures safe ==> PartsOf(s) != []
  {
    && !IsAbsolute(s) && PartsOf(s) != [] && ".." !in PartsOf(s)
    && StripSlashes(s) == Joined(PartsOf(s)) && '\\' !in s
  }

  /** One slash between the parts, wherever they are divided. */
  lemma {:induction false} JoinedTogether(a: Parts, b: Parts)
    requires a != [] && b != []
    ensures Joined(a + b) == Joined(a) + "/" + Joined(b)
    ensures Joined([a[0]]) == a[0]
  {
    if |a| > 1 {
      JoinedTogether(a[1..], b);
      assert (a + b)[1..] == a[1..] + b;
    } else {
      assert (a + b)[1..] == b;
    }
  }

  // ----- how a name is read, from the front ---------------------------------------------------------

  /** An empty part and a "." are dropped, any other part is kept. */
  lemma PartThenRest(part: string, rest: string)
    requires '/' !in part
    ensures PartsOf(part + "/" + rest) == (if part in {"", "."} then [] else [part]) + PartsOf(rest)
  {
    var s := part + "/" + rest;
    assert s[..|part|] == part && s[|part| + 1..] == rest;
    FirstSlashIs(s, |part|);
  }

  lemma LastPart(part: string)
    requires '/' !in part
    ensures PartsOf(part) == if part in {"", "."} then [] else [part]
  {
    assert part[..|part|] == part;
    FirstSlashIs(part, |part|);
  }

  predicate AllSlashes(s: string) { forall i | 0 <= i < |s| :: s[i] == '/' }

  /** Slashes at the end are stripped, and only those. */
  lemma {:induction false} SlashesStripped(s: string, slashes: string)
    requires AllSlashes(slashes)
    requires s == "" || s[|s| - 1] != '/'
    ensures StripSlashes(s + slashes) == s
  {
    if slashes == "" {
      assert s + slashes == s;
    } else {
      var n := |slashes| - 1;
      assert (s + slashes)[..|s| + n] == s + slashes[..n];
      SlashesStripped(s, slashes[..n]);
    }
  }

  /** The safe names are the relative ones written in the normal way, perhaps with slashes at the
      end, in which no part is ".." and no character a backslash. */
  lemma SafeMeans(s: string)
    ensures IsSafe(s) <==> exists parts, slashes :: IsSpelled(s, parts, slashes)
  {
    if IsSafe(s) {
      StrippedIsFront(s);
      var parts := PartsOf(s);
      assert IsSpelled(s, parts, s[|Joined(parts)|..]);
    }
    if exists parts, slashes :: IsSpelled(s, parts, slashes) {
      var parts, slashes :| IsSpelled(s, parts, slashes);
      SpelledIsSafe(s, parts, slashes);
    }
  }

  ghost predicate IsSpelled(s: string, parts: Parts, slashes: string) {
    && s == Joined(parts) + slashes && AllSlashes(slashes)
    && parts != [] && (forall part | part in parts :: part !in {"", ".", ".."} && '/' !in part && '\\' !in part)
  }

  lemma {:induction false} StrippedIsFront(s: string)
    ensures StripSlashes(s) <= s && AllSlashes(s[|StripSlashes(s)|..])
    ensures IsSafe(s) ==> forall part | part in PartsOf(s) :: '\\' !in part
  {
    if s != "" && s[|s| - 1] == '/' {
      StrippedIsFront(s[..|s| - 1]);
      var n := |StripSlashes(s)|;
      assert s[n..] == s[..|s| - 1][n..] + ['/'];
    }
    if IsSafe(s) {
      JoinedCharacters(PartsOf(s), '\\');
      assert forall c | c in StripSlashes(s) :: c in s;
    }
  }

  lemma {:induction false} SpelledIsSafe(s: string, parts: Parts, slashes: string)
    requires IsSpelled(s, parts, slashes)
    ensures IsSafe(s)
  {
    JoinedEnds(parts);
    SlashesStripped(Joined(parts), slashes);
    PartsOfSpelled(parts, slashes);
    JoinedCharacters(parts, '\\');
    assert s[0] == Joined(parts)[0];
  }

  lemma {:induction false} PartsOfSpelled(parts: Parts, slashes: string)
    requires forall part | part in parts :: part !in {"", "."} && '/' !in part
    requires AllSlashes(slashes)
    ensures PartsOf(Joined(parts) + slashes) == parts
  {
    hide IsComponent, PartsOf;
    var s := Joined(parts) + slashes;
    if parts == [] {
      NoParts(slashes);
      assert s == slashes;
    } else if |parts| == 1 {
      assert parts[0] in parts;
      if slashes == "" {
        assert s == parts[0];
        LastPart(parts[0]);
      } else {
        assert s == parts[0] + "/" + slashes[1..];
        PartThenRest(parts[0], slashes[1..]);
        NoParts(slashes[1..]);
      }
    } else {
      assert parts[0] in parts;
      assert s == parts[0] + "/" + (Joined(parts[1..]) + slashes);
      PartThenRest(parts[0], Joined(parts[1..]) + slashes);
      assert forall part | part in parts[1..] :: part in parts;
      PartsOfSpelled(parts[1..], slashes);
    }
  }

  lemma {:induction false} NoParts(slashes: string)
    requires AllSlashes(slashes)
    ensures PartsOf(slashes) == []
  {
    if slashes == "" {
      LastPart("");
    } else {
      assert slashes == "" + "/" + slashes[1..];
      PartThenRest("", slashes[1..]);
      NoParts(slashes[1..]);
    }
  }

  lemma FirstSlashIs(s: string, n: nat)
    requires n <= |s| && '/' !in s[..n] && (n < |s| ==> s[n] == '/')
    ensures FirstSlash(s) == n
  {
  }

  /** Joining parts and splitting again gives the parts back. */
  lemma {:induction false} PartsOfJoined(parts: Parts)
    requires forall part | part in parts :: IsComponent(part)
    ensures PartsOf(Joined(parts)) == parts
  {
    if parts != [] {
      var s, first := Joined(parts), parts[0];
      assert first in parts;
      assert s[..|first|] == first;
      FirstSlashIs(s, |first|);
      if |parts| > 1 {
        PartsOfJoined(parts[1..]);
        assert s[|first| + 1..] == Joined(parts[1..]);
        assert parts == [first] + parts[1..];
      }
    }
  }

  lemma {:induction false} JoinedEnds(parts: Parts)
    requires parts != [] && forall part | part in parts :: IsComponent(part)
    ensures Joined(parts) != "" && Joined(parts)[0] != '/' && Joined(parts)[|Joined(parts)| - 1] != '/'
  {
    var first := parts[0];
    assert first in parts;
    assert first[0] in first && first[|first| - 1] in first;
    if |parts| > 1 {
      JoinedEnds(parts[1..]);
      var rest := Joined(parts[1..]);
      assert Joined(parts)[|Joined(parts)| - 1] == rest[|rest| - 1];
    }
  }

  lemma {:induction false} JoinedCharacters(parts: Parts, c: char)
    requires c != '/'
    ensures c in Joined(parts) <==> exists part :: part in parts && c in part
  {
    if |parts| > 1 {
      var rest := parts[1..];
      JoinedCharacters(rest, c);
      assert forall part :: part in parts <==> part == parts[0] || part in rest;
    }
  }

  /** A joined name is safe unless a part is ".." or holds a backslash. */
  lemma JoinedIsSafe(parts: Parts)
    requires parts != [] && forall part | part in parts :: IsComponent(part)
    ensures IsSafe(Joined(parts)) <==> forall part | part in parts :: part != ".." && '\\' !in part
  {
    PartsOfJoined(parts);
    JoinedEnds(parts);
    JoinedCharacters(parts, '\\');
  }
}
