/** How environment files are read, from the front and piece by piece: the lines, the kinds of
    lines, and what is found in them. */
module DotenvLaws {
  import opened Chars
  import opened Ordering
  import opened Dotenv
  import opened DotenvPlan

  // ----- characters and names -----------------------------------------------------------------------

  lemma CharactersAre()
    ensures forall c :: IsKeyStart(c) <==> c in CAPITALS + SMALL + {'_'}
    ensures forall c :: IsKeyChar(c) <==> c in ALPHANUMERIC + {'_'}
    ensures forall c :: IsBlank(c) <==> c in " \t"
  {
    hide CAPITALS, SMALL, DIGITS, ALPHANUMERIC;
    forall c
      ensures IsKeyStart(c) <==> c in CAPITALS + SMALL + {'_'}
      ensures IsKeyChar(c) <==> c in ALPHANUMERIC + {'_'}
      ensures IsBlank(c) <==> c in " \t"
    {
      CapitalIs(c);
      SmallIs(c);
      AlphanumericIs(c);
    }
  }

  /** A retired name begins with the four characters, in capitals or not; they are exchanged. */
  lemma RetiredNames(key: string)
    ensures IsRetired(key)
      <==> exists c, q, a, rest :: key == [c, q, a, '_'] + rest && c in "Cc" && q in "Qq" && a in "Aa"
    ensures forall c, q, a, rest | key == [c, q, a, '_'] + rest && c in "Cc" && q in "Qq" && a in "Aa" ::
      CanonicalKey(key) == "HIDLOOM_" + rest
    ensures !IsRetired(key) ==> CanonicalKey(key) == key
  {
    if IsRetired(key) {
      RetiredStart(key);
      assert key == [key[0], key[1], key[2], '_'] + key[4..];
    }
    forall c, q, a, rest | key == [c, q, a, '_'] + rest && c in "Cc" && q in "Qq" && a in "Aa"
      ensures IsRetired(key) && CanonicalKey(key) == "HIDLOOM_" + rest
    {
      assert key[0] == c && key[1] == q && key[2] == a && key[3] == '_' && key[4..] == rest;
      RetiredStart(key);
    }
  }

  lemma RetiredStart(key: string)
    ensures IsRetired(key)
      <==> |key| >= 4 && key[0] in "Cc" && key[1] in "Qq" && key[2] in "Aa" && key[3] == '_'
  {
    if |key| >= 4 {
      assert forall i | 0 <= i < 4 :: RETIRED_PREFIX[i] == "CQA_"[i];
      UpperIs(key[0]);
      UpperIs(key[1]);
      UpperIs(key[2]);
      UpperIs(key[3]);
      hide Upper;
      if IsRetired(key) {
        assert Upper(key[0]) == 'C' && Upper(key[1]) == 'Q' && Upper(key[2]) == 'A' && Upper(key[3]) == '_';
      }
    }
  }

  lemma UpperIs(c: char)
    ensures Upper(c) == 'C' <==> c in "Cc"
    ensures Upper(c) == 'Q' <==> c in "Qq"
    ensures Upper(c) == 'A' <==> c in "Aa"
    ensures Upper(c) == '_' <==> c == '_'
  {
  }

  // ----- lines ----------------------------------------------------------------------------------------

  /** A carriage return and a line feed together end one line; any other break ends a line by
      itself; and what follows the last break is a line if it is not empty. */
  lemma LineThenRest(front: string, b: char, rest: string)
    requires (forall c | c in front :: !IsBreak(c)) && IsBreak(b)
    ensures Lines(front + "\r\n" + rest) == [front + "\r\n"] + Lines(rest)
    ensures !(b == '\r' && rest != "" && rest[0] == '\n') ==>
      Lines(front + [b] + rest) == [front + [b]] + Lines(rest)
    ensures Lines(front) == if front == "" then [] else [front]
  {
    BreaksAt(front, '\r', "\n" + rest);
    var both, one := front + "\r\n" + rest, front + [b] + rest;
    assert both == front + ['\r'] + ("\n" + rest);
    assert both[|front|] == '\r' && both[|front| + 1] == '\n';
    assert both[..|front| + 2] == front + "\r\n" && both[|front| + 2..] == rest;
    BreaksAt(front, b, rest);
    assert one[|front|] == b && (rest != "" ==> one[|front| + 1] == rest[0]);
    assert one[..|front| + 1] == front + [b] && one[|front| + 1..] == rest;
    NoBreak(front);
    if front != "" {
      assert front[..|front|] == front && front[|front|..] == "";
    }
  }

  lemma BreaksAt(front: string, b: char, rest: string)
    requires (forall c | c in front :: !IsBreak(c)) && IsBreak(b)
    ensures FirstBreak(front + [b] + rest) == |front|
  {
    var s := front + [b] + rest;
    assert s[|front|] == b;
    assert forall i | 0 <= i < |front| :: s[i] == front[i] && front[i] in front;
    FirstBreakIs(s, |front|);
  }

  lemma FirstBreakIs(s: string, n: nat)
    requires n <= |s| && (forall i | 0 <= i < n :: !IsBreak(s[i])) && (n < |s| ==> IsBreak(s[n]))
    ensures FirstBreak(s) == n
  {
    hide IsBreak;
  }

  lemma NoBreak(front: string)
    requires forall c | c in front :: !IsBreak(c)
    ensures FirstBreak(front) == |front|
  {
    assert forall i | 0 <= i < |front| :: front[i] in front;
    FirstBreakIs(front, |front|);
  }

  // ----- the kinds of lines ---------------------------------------------------------------------------

  /** A line of white space and a line whose first other character is a number sign are passed
      over; any other line is an assignment where the pattern matches, and otherwise invalid. */
  lemma LineKinds(front: string, c: char, rest: string)
    requires (forall s | s in front :: IsSpace(s)) && !IsSpace(c)
    ensures Classify(front) == Ignored
    ensures var line := front + [c] + rest;
      && (c == '#' ==> Classify(line) == Ignored)
      && (c != '#' ==> forall start: nat, end: nat | Matches(line, start, end) ::
        Classify(line) == Assigns(line[start..end], start, end))
      && (c != '#' && (forall start: nat, end: nat :: !Matches(line, start, end)) ==> Classify(line) == Invalid)
  {
    var line := front + [c] + rest;
    VisibleAt(front, c, rest);
    hide MatchLine, Matches;
    if c != '#' {
      forall start: nat, end: nat | Matches(line, start, end)
        ensures Classify(line) == Assigns(line[start..end], start, end)
      {
        MatchLineIsPattern(line, start, end);
      }
      if MatchLine(line).Some? {
        var span := MatchLine(line).value;
        MatchLineIsPattern(line, span.start, span.end);
      }
    }
  }

  lemma VisibleAt(front: string, c: char, rest: string)
    requires (forall s | s in front :: IsSpace(s)) && !IsSpace(c)
    ensures FirstVisible(front) == |front| && FirstVisible(front + [c] + rest) == |front|
    ensures (front + [c] + rest)[|front|] == c
  {
    var line := front + [c] + rest;
    assert line[|front|] == c;
    assert forall i | 0 <= i < |front| :: line[i] == front[i] && front[i] in front;
    FirstVisibleIs(front, |front|);
    FirstVisibleIs(line, |front|);
  }

  lemma FirstVisibleIs(s: string, n: nat)
    requires n <= |s| && (forall i | 0 <= i < n :: IsSpace(s[i])) && (n < |s| ==> !IsSpace(s[n]))
    ensures FirstVisible(s) == n
  {
    hide IsSpace;
  }

  // ----- what is found in the lines -------------------------------------------------------------------

  /** Each line that is an assignment gives one, and nothing else does. */
  lemma {:induction false} AssignmentsMean(lines: seq<string>, n: nat, a: Assignment)
    requires n <= |lines|
    ensures a in Assignments(lines, n) <==> 1 <= a.line <= n && AssignsAt(lines, a.line, a.key, a.start, a.end)
  {
    hide Classify, AssignsAt;
    if n > 0 {
      AssignmentsMean(lines, n - 1, a);
      LineAssignmentsMean(lines, n, a);
      assert a in Assignments(lines, n) <==> a in Assignments(lines, n - 1) || a in LineAssignments(lines[n - 1], n);
    }
  }

  predicate AssignsAt(lines: seq<string>, n: nat, key: string, start: nat, end: nat) {
    1 <= n <= |lines| && Classify(lines[n - 1]) == Assigns(key, start, end)
  }

  lemma LineAssignmentsMean(lines: seq<string>, n: nat, a: Assignment)
    requires 1 <= n <= |lines|
    ensures a in LineAssignments(lines[n - 1], n) <==> a.line == n && AssignsAt(lines, n, a.key, a.start, a.end)
  {
    hide Classify;
  }

  /** The name is assigned on line n. */
  ghost predicate Names(lines: seq<string>, n: nat, key: string) {
    exists start: nat, end: nat :: AssignsAt(lines, n, key, start, end)
  }

  ghost predicate NamedBefore(lines: seq<string>, n: nat, key: string) {
    exists m: nat :: m < n && Names(lines, m, key)
  }

  /** What is to be reported: a line that is no assignment, a name that an earlier line has too, and
      a retired name. */
  ghost predicate IsFinding(lines: seq<string>, f: Finding) {
    1 <= f.line <= |lines|
    && match f.kind
       case InvalidAssignment => Classify(lines[f.line - 1]) == Invalid && f.key == ""
       case DuplicateName => Names(lines, f.line, f.key) && NamedBefore(lines, f.line, f.key)
       case RetiredName => Names(lines, f.line, f.key) && IsRetired(f.key)
       case _ => false
  }

  /** Exactly that is found, and nothing twice. */
  lemma {:induction false} FindingsMean(lines: seq<string>, n: nat, f: Finding)
    requires n <= |lines|
    ensures f in Findings(lines, n) <==> f.line <= n && IsFinding(lines, f)
    ensures Distinct(Findings(lines, n)) && forall g | g in Findings(lines, n) :: g.line <= n
  {
    hide Classify, IsRetired, IsFinding, LineFindings, Distinct;
    if n > 0 {
      FindingsMean(lines, n - 1, f);
      LineFindingsMean(lines, n, f);
      var before, added := Findings(lines, n - 1), LineFindings(lines[n - 1], n, Keys(Assignments(lines, n - 1)));
      assert Findings(lines, n) == before + added;
      assert f in before + added <==> f in before || f in added;
      AllDistinct(before, added, n);
    } else {
      NoFinding(lines, f);
      assert Distinct<Finding>([]) by { NothingDistinct(); }
    }
  }

  lemma NothingDistinct()
    ensures Distinct<Finding>([])
  {
  }

  lemma NoFinding(lines: seq<string>, f: Finding)
    ensures IsFinding(lines, f) ==> f.line >= 1
  {
  }

  lemma AllDistinct(before: seq<Finding>, added: seq<Finding>, n: nat)
    requires Distinct(before) && Distinct(added)
    requires (forall g | g in before :: g.line < n) && forall g | g in added :: g.line == n
    ensures Distinct(before + added) && forall g | g in before + added :: g.line <= n
  {
    var all := before + added;
    forall i, j | 0 <= i < j < |all|
      ensures all[i] != all[j]
    {
      if i < |before| <= j {
        assert before[i] in before && added[j - |before|] in added;
      }
    }
  }

  lemma LineFindingsMean(lines: seq<string>, n: nat, f: Finding)
    requires 1 <= n <= |lines|
    ensures var added := LineFindings(lines[n - 1], n, Keys(Assignments(lines, n - 1)));
      && (f in added <==> f.line == n && IsFinding(lines, f)) && Distinct(added)
      && forall g | g in added :: g.line == n
  {
    hide Classify, IsRetired, NamedBefore;
    KeysSeen(lines, n - 1);
    match Classify(lines[n - 1])
    case Assigns(key, start, end) =>
      assert AssignsAt(lines, n, key, start, end);
      assert NamedBefore(lines, n, key) <==> key in Keys(Assignments(lines, n - 1));
      assert forall k :: Names(lines, n, k) <==> k == key;
    case Ignored => assert forall k :: !Names(lines, n, k);
    case Invalid => assert forall k :: !Names(lines, n, k);
  }

  lemma KeysSeen(lines: seq<string>, n: nat)
    requires n <= |lines|
    ensures forall key :: key in Keys(Assignments(lines, n)) <==> NamedBefore(lines, n + 1, key)
  {
    hide AssignsAt;
    forall key
      ensures key in Keys(Assignments(lines, n)) <==> NamedBefore(lines, n + 1, key)
    {
      if key in Keys(Assignments(lines, n)) {
        var a :| a in Assignments(lines, n) && a.key == key;
        AssignmentsMean(lines, n, a);
        assert Names(lines, a.line, key);
      }
      if m: nat :| m < n + 1 && Names(lines, m, key) {
        var start: nat, end: nat :| AssignsAt(lines, m, key, start, end);
        AssignsIn(lines, m, key, start, end);
        AssignmentsMean(lines, n, Assignment(m, key, start, end));
      }
    }
  }

  lemma AssignsIn(lines: seq<string>, n: nat, key: string, start: nat, end: nat)
    requires AssignsAt(lines, n, key, start, end)
    ensures 1 <= n <= |lines|
  {
  }

  // ----- the plan ---------------------------------------------------------------------------------------

  /** Retired names do not stand in the way of a rewrite, anything else does; the findings about a
      file are those that are not about its lines. */
  lemma KindsAre(f: Finding)
    ensures !Blocking(f) <==> f.kind == RetiredName
    ensures IsFileProblem(f.kind) <==> f.kind !in {DuplicateName, RewriteCollision, InvalidAssignment, RetiredName}
  {
  }

  /** A name collides if it is retired and its new name is assigned somewhere, or is the new name of
      another one before it. */
  ghost predicate Collides(assignments: seq<Assignment>, j: nat)
    requires j < |assignments|
  {
    IsRetired(assignments[j].key)
    && exists k: nat :: k < |assignments| && (
         || assignments[k].key == CanonicalKey(assignments[j].key)
         || (k < j && IsRetired(assignments[k].key)
             && CanonicalKey(assignments[k].key) == CanonicalKey(assignments[j].key)))
  }

  /** Each collision is reported, with its line and its name, and nothing else is. */
  lemma {:induction false} ClashesMean(assignments: seq<Assignment>, n: nat, f: Finding)
    requires n <= |assignments| && forall a | a in assignments :: IsKey(a.key)
    ensures f in Clashes(assignments, n) <==> exists j: nat :: (
      j < n && Collides(assignments, j) && f == Finding(RewriteCollision, assignments[j].line, assignments[j].key))
  {
    hide Collides, Clash;
    if n > 0 {
      ClashesMean(assignments, n - 1, f);
      ClashMeans(assignments, n - 1);
    }
  }

  lemma ClashMeans(assignments: seq<Assignment>, j: nat)
    requires j < |assignments| && forall a | a in assignments :: IsKey(a.key)
    ensures Clash(assignments, j) <==> Collides(assignments, j)
  {
    hide CanonicalKey, IsRetired;
    var target := CanonicalKey(assignments[j].key);
    forall k: nat | k < |assignments|
      ensures CanonicalKey(assignments[k].key) == assignments[k].key <==> !IsRetired(assignments[k].key)
    {
      assert assignments[k] in assignments;
      CanonicalIsKey(assignments[k].key);
    }
    if target in Keys(assignments) {
      var k: nat :| k < |assignments| && assignments[k].key == target;
      assert assignments[k].key == CanonicalKey(assignments[j].key);
    }
    forall k: nat | k < |assignments| && assignments[k].key == target
      ensures target in Keys(assignments)
    {
      assert assignments[k] in assignments;
    }
  }

  /** The mappings are those of the retired names, in the order of the assignments. */
  lemma {:induction false} RenamingsMean(assignments: seq<Assignment>, n: nat) returns (places: seq<nat>)
    requires n <= |assignments| && forall a | a in assignments :: IsKey(a.key)
    ensures var renamings := Renamings(assignments, n);
      && |places| == |renamings| && (forall i, j | 0 <= i < j < |places| :: places[i] < places[j])
      && (forall k: nat :: k in places <==> k < n && IsRetired(assignments[k].key))
      && (forall i | 0 <= i < |places| :: (
            places[i] < n
            && renamings[i] == (assignments[places[i]].key, CanonicalKey(assignments[places[i]].key))))
  {
    hide CanonicalKey, IsRetired;
    places := [];
    if n > 0 {
      var before := RenamingsMean(assignments, n - 1);
      assert assignments[n - 1] in assignments;
      CanonicalIsKey(assignments[n - 1].key);
      places := before + if IsRetired(assignments[n - 1].key) then [n - 1] else [];
      assert forall i | 0 <= i < |before| :: before[i] in before;
      assert forall k: nat :: k in places <==> k in before || (k == n - 1 && IsRetired(assignments[n - 1].key));
    }
  }

  /** In a line that is an assignment only the name is exchanged; any other line stays. */
  lemma OnlyTheName(lead: string, key: string, tail: string, other: string)
    requires Classify(lead + key + tail) == Assigns(key, |lead|, |lead| + |key|)
    ensures RewriteLine(lead + key + tail) == lead + CanonicalKey(key) + tail
    ensures !Classify(other).Assigns? ==> RewriteLine(other) == other
  {
    hide CanonicalKey, Classify;
    var line := lead + key + tail;
    assert line[..|lead|] == lead && line[|lead| + |key|..] == tail;
  }

  /** Findings are sorted by their kind first, and the kinds by their names: in this order. */
  lemma KindsInOrder(a: Finding, b: Finding)
    requires a.kind != b.kind
    ensures FindingLess(a, b) <==> Rank(a.kind) < Rank(b.kind)
  {
    hide FindingLess, StringLess, KindText;
    StringOrder();
    KindDecides(a, b);
    if Rank(a.kind) < Rank(b.kind) {
      KindBefore(a.kind, b.kind);
    } else {
      KindBefore(b.kind, a.kind);
    }
  }

  lemma KindDecides(a: Finding, b: Finding)
    requires a.kind != b.kind
    ensures FindingLess(a, b) <==> StringLess(KindText(a.kind), KindText(b.kind))
  {
  }

  function Rank(kind: FindingKind): nat {
    match kind
    case DuplicateName => 0
    case RewriteCollision => 1
    case InsecureMode => 2
    case InvalidAssignment => 3
    case NonRegularFile => 4
    case NonUtf8File => 5
    case RetiredName => 6
    case SymlinkFile => 7
    case UnreadableFile => 8
  }

  lemma {:induction false} KindBefore(a: FindingKind, b: FindingKind)
    requires Rank(a) < Rank(b)
    ensures StringLess(KindText(a), KindText(b))
    decreases Rank(b)
  {
    hide StringLess, KindText;
    StringOrder();
    if Rank(a) + 1 == Rank(b) {
      KindFollows(a, b);
    } else {
      var c :| Rank(c) + 1 == Rank(b);
      KindBefore(a, c);
      KindFollows(c, b);
    }
  }

  lemma KindFollows(a: FindingKind, b: FindingKind)
    requires Rank(a) + 1 == Rank(b)
    ensures StringLess(KindText(a), KindText(b))
  {
    hide StringLess, KindText;
    var k := if a.InsecureMode? then 2 else if a.NonRegularFile? then 4 else 0;
    SameFront(a, b, k);
    FrontDecides(KindText(a), KindText(b), k);
  }

  lemma SameFront(a: FindingKind, b: FindingKind, k: nat)
    requires Rank(a) + 1 == Rank(b) && k == if a.InsecureMode? then 2 else if a.NonRegularFile? then 4 else 0
    ensures k < |KindText(a)| && k < |KindText(b)| && KindText(a)[..k] == KindText(b)[..k]
    ensures KindText(a)[k] < KindText(b)[k]
  {
  }

  lemma FrontDecides(s: string, t: string, k: nat)
    requires k < |s| && k < |t| && s[..k] == t[..k] && s[k] < t[k]
    ensures StringLess(s, t)
  {
    hide StringLess;
    StringsCompare(s[..k], s[k], t[k], s[k + 1..], t[k + 1..]);
    assert s == s[..k] + [s[k]] + s[k + 1..] && t == t[..k] + [t[k]] + t[k + 1..];
  }
}
