/** tools/local_environment_hygiene.py: planning the rewrite of retired key names. */
module DotenvPlan {
  import opened Options
  import opened Ordering
  import opened Dotenv

  datatype Inspection = Inspection(findings: seq<Finding>, assignments: seq<Assignment>, text: Option<string>)

  /** What inspect returns: the parsed text, and perhaps findings about the file itself. */
  ghost predicate Inspected(inspection: Inspection) {
    match inspection.text
    case None => inspection.assignments == []
    case Some(text) =>
      && inspection.assignments == AssignmentsOf(text)
      && (forall f | f in FindingsOf(text) :: f in inspection.findings)
      && (forall f | f in inspection.findings :: f in FindingsOf(text) || IsFileProblem(f.kind))
  }

  function AssignmentsOf(text: string): seq<Assignment> { Assignments(Lines(text), |Lines(text)|) }

  function FindingsOf(text: string): seq<Finding> { Findings(Lines(text), |Lines(text)|) }

  predicate Plannable(inspection: Inspection) {
    inspection.text.Some? && forall f | f in inspection.findings :: !Blocking(f)
  }

  /** The old and new name of every retired assignment, in file order. */
  function Renamings(assignments: seq<Assignment>, n: nat): seq<(string, string)>
    requires n <= |assignments|
  {
    if n == 0 then [] else
      var key := assignments[n - 1].key;
      Renamings(assignments, n - 1) + if CanonicalKey(key) == key then [] else [(key, CanonicalKey(key))]
  }

  /** Assignment j would be renamed to a name that is already used. */
  predicate Clash(assignments: seq<Assignment>, j: nat)
    requires j < |assignments|
  {
    var key := assignments[j].key;
    var target := CanonicalKey(key);
    target != key && (target in Keys(assignments) || TargetOfEarlier(assignments, j, target))
  }

  predicate TargetOfEarlier(assignments: seq<Assignment>, j: nat, target: string)
    requires j <= |assignments|
  {
    exists k | 0 <= k < j :: CanonicalKey(assignments[k].key) == target != assignments[k].key
  }

  function Clashes(assignments: seq<Assignment>, n: nat): seq<Finding>
    requires n <= |assignments|
  {
    if n == 0 then [] else
      var a := assignments[n - 1];
      Clashes(assignments, n - 1) + if Clash(assignments, n - 1) then [Finding(RewriteCollision, a.line, a.key)] else []
  }

  predicate KeysDistinct(assignments: seq<Assignment>) {
    forall i, j | 0 <= i < j < |assignments| :: assignments[i].key != assignments[j].key
  }

  /** A collision is reported exactly when two assignments would end up with one name. */
  lemma ClashesFound(assignments: seq<Assignment>)
    requires KeysDistinct(assignments) && forall a | a in assignments :: IsKey(a.key)
    ensures Clashes(assignments, |assignments|) == [] <==> CanonicalKeysDistinct(assignments)
  {
    NoClash(assignments, |assignments|);
    if i, j :| 0 <= i < j < |assignments| && CanonicalKey(assignments[i].key) == CanonicalKey(assignments[j].key) {
      CanonicalIsKey(assignments[i].key);
      CanonicalIsKey(assignments[j].key);
      hide CanonicalKey, IsRetired;
      var a, b := assignments[i].key, assignments[j].key;
      assert assignments[i] in assignments && assignments[j] in assignments;
      if CanonicalKey(a) == a {
        assert Clash(assignments, j);
      } else if CanonicalKey(b) == b {
        assert Clash(assignments, i);
      } else {
        assert Clash(assignments, j);
      }
    }
    if j :| 0 <= j < |assignments| && Clash(assignments, j) {
      hide CanonicalKey, IsRetired;
      var target := CanonicalKey(assignments[j].key);
      if target in Keys(assignments) {
        var i :| 0 <= i < |assignments| && assignments[i].key == target;
        CanonicalIsKey(assignments[j].key);
        assert i != j && CanonicalKey(assignments[i].key) == target;
      }
    }
  }

  lemma {:induction false} NoClash(assignments: seq<Assignment>, n: nat)
    requires n <= |assignments|
    ensures Clashes(assignments, n) == [] <==> forall j | 0 <= j < n :: !Clash(assignments, j)
  {
    if n > 0 { NoClash(assignments, n - 1); }
  }

  /** The assignment on this line. */
  predicate On(a: Assignment, line: string) { Classify(line) == Assigns(a.key, a.start, a.end) }

  predicate HasAssignment(line: string) { Classify(line).Assigns? }

  ghost predicate LineIn(assignments: seq<Assignment>, i: nat, line: nat) {
    exists j :: 0 <= j < i && j < |assignments| && assignments[j].line == line
  }

  ghost predicate InOrder(assignments: seq<Assignment>) {
    forall i, j | 0 <= i < j < |assignments| :: assignments[i].line < assignments[j].line
  }

  /** Each assignment describes its own line, and each line with an assignment has one. */
  ghost predicate Describes(assignments: seq<Assignment>, lines: seq<string>, n: nat)
    requires n <= |lines|
  {
    && InOrder(assignments)
    && (forall j | 0 <= j < |assignments| ::
      1 <= assignments[j].line <= n && On(assignments[j], lines[assignments[j].line - 1]))
    && (forall i: nat | i < n && HasAssignment(lines[i]) :: LineIn(assignments, |assignments|, i + 1))
  }

  lemma {:induction false} AssignmentsDescribe(lines: seq<string>, n: nat)
    requires n <= |lines|
    ensures Describes(Assignments(lines, n), lines, n)
  {
    hide LineAssignments, On, HasAssignment, LineIn;
    if n > 0 {
      AssignmentsDescribe(lines, n - 1);
      AddedIsOn(lines[n - 1], n);
      DescribesMore(Assignments(lines, n - 1), LineAssignments(lines[n - 1], n), lines, n);
    } else {
      assert Assignments(lines, n) == [];
    }
  }

  lemma AddedIsOn(line: string, n: nat)
    ensures var added := LineAssignments(line, n);
      if HasAssignment(line) then |added| == 1 && added[0].line == n && On(added[0], line) else added == []
  {
  }

  lemma DescribesMore(before: seq<Assignment>, added: seq<Assignment>, lines: seq<string>, n: nat)
    requires 0 < n <= |lines| && Describes(before, lines, n - 1)
    requires if HasAssignment(lines[n - 1])
      then |added| == 1 && added[0].line == n && On(added[0], lines[n - 1])
      else added == []
    ensures Describes(before + added, lines, n)
  {
    hide On, HasAssignment;
    var all := before + added;
    forall i: nat | i < n && HasAssignment(lines[i])
      ensures LineIn(all, |all|, i + 1)
    {
      if i == n - 1 {
        assert all[|before|].line == n;
      } else {
        var j :| 0 <= j < |before| && before[j].line == i + 1;
        assert all[j].line == i + 1;
      }
    }
    hide LineIn;
  }

  lemma NewKey(line: string, n: nat, before: seq<Assignment>)
    requires forall f | f in LineFindings(line, n, Keys(before)) :: !Blocking(f)
    ensures forall a, b | a in before && b in LineAssignments(line, n) :: a.key != b.key
    ensures |LineAssignments(line, n)| <= 1
  {
    match Classify(line)
    case Assigns(key, _, _) =>
      assert key in Keys(before) ==> Finding(DuplicateName, n, key) in LineFindings(line, n, Keys(before));
    case _ =>
  }

  /** Without a duplicate-name finding the names are pairwise different. */
  lemma {:induction false} NoDuplicates(lines: seq<string>, n: nat)
    requires n <= |lines| && forall f | f in Findings(lines, n) :: !Blocking(f)
    ensures KeysDistinct(Assignments(lines, n))
  {
    hide LineAssignments, LineFindings, Blocking, Keys;
    if n > 0 {
      var before, line := Assignments(lines, n - 1), lines[n - 1];
      assert forall f | f in Findings(lines, n - 1) :: f in Findings(lines, n);
      assert forall f | f in LineFindings(line, n, Keys(before)) :: f in Findings(lines, n);
      NoDuplicates(lines, n - 1);
      NewKey(line, n, before);
    }
  }

  /** The first loop of migration_plan: new names by line, or the collisions. */
  method PlanReplacements(assignments: seq<Assignment>)
    returns (collisions: seq<Finding>, mappings: seq<(string, string)>, replacements: map<nat, string>)
    requires InOrder(assignments)
    ensures collisions == Clashes(assignments, |assignments|)
    ensures collisions == [] ==> (
      mappings == Renamings(assignments, |assignments|) && Replaces(replacements, assignments, |assignments|))
  {
    hide CanonicalKey, Replaces, Keys, TargetOfEarlier;
    var existing := Keys(assignments);
    var targets: set<string> := {};
    collisions, mappings, replacements := [], [], map[];
    NothingPlanned(assignments);
    for i := 0 to |assignments|
      invariant collisions == Clashes(assignments, i)
      invariant forall t :: t in targets <==> t !in existing && TargetOfEarlier(assignments, i, t)
      invariant collisions == [] ==> mappings == Renamings(assignments, i) && Replaces(replacements, assignments, i)
    {
      var a := assignments[i];
      var replacement := CanonicalKey(a.key);
      forall t: string { TargetsGrow(assignments, i, t); }
      if collisions == [] { ReplacesMore(replacements, assignments, i); }
      if replacement == a.key { continue; }
      if replacement in existing || replacement in targets {
        collisions := collisions + [Finding(RewriteCollision, a.line, a.key)];
        continue;
      }
      targets := targets + {replacement};
      mappings := mappings + [(a.key, replacement)];
      replacements := replacements[a.line := replacement];
    }
  }

  lemma NothingPlanned(assignments: seq<Assignment>)
    ensures Replaces(map[], assignments, 0) && forall t: string :: !TargetOfEarlier(assignments, 0, t)
  {
  }

  lemma ReplacesMore(replacements: map<nat, string>, assignments: seq<Assignment>, n: nat)
    requires n < |assignments| && Replaces(replacements, assignments, n)
    requires InOrder(assignments)
    ensures var a := assignments[n];
      Replaces(if CanonicalKey(a.key) == a.key then replacements else replacements[a.line := CanonicalKey(a.key)],
        assignments, n + 1)
  {
    hide CanonicalKey;
  }

  lemma TargetsGrow(assignments: seq<Assignment>, i: nat, t: string)
    requires i < |assignments|
    ensures TargetOfEarlier(assignments, i + 1, t)
      <==> TargetOfEarlier(assignments, i, t) || CanonicalKey(assignments[i].key) == t != assignments[i].key
  {
  }

  /** The new name of each of the first n assignments that gets one, by line. */
  ghost predicate Replaces(replacements: map<nat, string>, assignments: seq<Assignment>, n: nat)
    requires n <= |assignments|
  {
    && (forall j | 0 <= j < n :: (
      var key, line := assignments[j].key, assignments[j].line;
      if CanonicalKey(key) == key then line !in replacements
      else line in replacements && replacements[line] == CanonicalKey(key)))
    && (forall line <- replacements :: exists j :: 0 <= j < n && assignments[j].line == line)
  }

  /** The second loop: only key spans are overwritten. */
  method SpliceKeys(text: string, assignments: seq<Assignment>, replacements: map<nat, string>)
    returns (rendered: string)
    requires assignments == AssignmentsOf(text) && Replaces(replacements, assignments, |assignments|)
    ensures rendered == Rewrite(text)
  {
    hide Lines, Assignments, AssignmentsOf, Join, LineIn, HasAssignment, InOrder, Classify, Describes, CanonicalKey,
      Rewrite, RewriteLine, Replaces, Spliced, On;
    var lines := Lines(text);
    ghost var original := lines;
    NothingSpliced(text);
    for i := 0 to |assignments|
      invariant |lines| == |original| && Spliced(lines, original, assignments, i)
    {
      var a := assignments[i];
      ReplacementAt(replacements, assignments, i);
      SpliceOne(lines, original, assignments, i);
      OneLine(lines[a.line - 1], a);
      if a.line !in replacements { continue; }
      var line := lines[a.line - 1];
      lines := lines[a.line - 1 := line[..a.start] + replacements[a.line] + line[a.end..]];
    }
    AllSpliced(lines, original, assignments);
    RewrittenLinewise(text, lines);
    rendered := Join(lines);
  }

  /** The lines of the first i assignments are rewritten, the others are as they were. */
  ghost predicate Spliced(lines: seq<string>, original: seq<string>, assignments: seq<Assignment>, i: nat)
    requires |lines| == |original|
  {
    && Describes(assignments, original, |original|)
    && forall n | 0 <= n < |lines| ::
      lines[n] == if LineIn(assignments, i, n + 1) then RewriteLine(original[n]) else original[n]
  }

  lemma NothingSpliced(text: string)
    ensures Spliced(Lines(text), Lines(text), AssignmentsOf(text), 0)
  {
    AssignmentsDescribe(Lines(text), |Lines(text)|);
  }

  lemma ReplacementAt(replacements: map<nat, string>, assignments: seq<Assignment>, i: nat)
    requires i < |assignments| && Replaces(replacements, assignments, |assignments|)
    ensures var a := assignments[i];
      if a.line in replacements then replacements[a.line] == CanonicalKey(a.key) else CanonicalKey(a.key) == a.key
  {
    hide CanonicalKey;
  }

  lemma SpliceOne(lines: seq<string>, original: seq<string>, assignments: seq<Assignment>, i: nat)
    requires |lines| == |original| && i < |assignments| && Spliced(lines, original, assignments, i)
    ensures var a := assignments[i];
      && 1 <= a.line <= |lines| && lines[a.line - 1] == original[a.line - 1] && On(a, original[a.line - 1])
      && Spliced(lines[a.line - 1 := RewriteLine(lines[a.line - 1])], original, assignments, i + 1)
      && (RewriteLine(lines[a.line - 1]) == lines[a.line - 1] ==> Spliced(lines, original, assignments, i + 1))
  {
    hide RewriteLine, On, HasAssignment;
    var a := assignments[i];
    assert !LineIn(assignments, i, a.line);
    assert forall n: nat :: LineIn(assignments, i + 1, n) <==> LineIn(assignments, i, n) || n == a.line;
    hide LineIn;
  }

  lemma AllSpliced(lines: seq<string>, original: seq<string>, assignments: seq<Assignment>)
    requires |lines| == |original| && Spliced(lines, original, assignments, |assignments|)
    ensures forall n | 0 <= n < |lines| :: lines[n] == RewriteLine(original[n])
  {
    hide Classify, CanonicalKey, On, LineIn;
    forall n: nat | 0 <= n < |lines|
      ensures lines[n] == RewriteLine(original[n])
    {
      if !HasAssignment(original[n]) {
        CanonicalLineStays(original[n]);
      }
    }
  }

  lemma RewrittenLinewise(text: string, lines: seq<string>)
    requires |lines| == |Lines(text)| && forall n | 0 <= n < |lines| :: lines[n] == RewriteLine(Lines(text)[n])
    ensures Join(lines) == Rewrite(text)
  {
    assert lines == RewriteLines(Lines(text));
  }

  lemma OneLine(line: string, a: Assignment)
    requires On(a, line)
    ensures a.start < a.end < |line|
    ensures RewriteLine(line) == line[..a.start] + CanonicalKey(a.key) + line[a.end..]
    ensures CanonicalKey(a.key) == a.key ==> RewriteLine(line) == line
  {
    if CanonicalKey(a.key) == a.key { CanonicalLineStays(line); }
  }

  lemma PlanReady(inspection: Inspection)
    requires Inspected(inspection) && Plannable(inspection)
    ensures var text := inspection.text.value;
      && inspection.assignments == AssignmentsOf(text)
      && (forall f | f in FindingsOf(text) :: !Blocking(f))
      && KeysDistinct(inspection.assignments) && (forall a | a in inspection.assignments :: IsKey(a.key))
      && Describes(inspection.assignments, Lines(text), |Lines(text)|)
  {
    var lines := Lines(inspection.text.value);
    NoDuplicates(lines, |lines|);
    CleanNames(lines, |lines|);
    AssignmentsDescribe(lines, |lines|);
  }

  function BlockingOf(findings: seq<Finding>): seq<Finding> {
    if findings == [] then [] else
      var last := findings[|findings| - 1];
      BlockingOf(findings[..|findings| - 1]) + if Blocking(last) then [last] else []
  }

  lemma {:induction false} BlockingMembers(findings: seq<Finding>)
    ensures forall f :: f in BlockingOf(findings) <==> f in findings && Blocking(f)
  {
    if findings != [] {
      BlockingMembers(findings[..|findings| - 1]);
      assert findings == findings[..|findings| - 1] + [findings[|findings| - 1]];
    }
  }

  /** migration_plan. The re-check of the rendered text never refuses. */
  method MigrationPlan(inspection: Inspection)
    returns (findings: seq<Finding>, mappings: seq<(string, string)>, rendered: Option<string>)
    requires Inspected(inspection)
    ensures inspection.text.None? || findings != [] ==> mappings == [] && rendered == inspection.text
    ensures !Plannable(inspection) ==> findings == Sort(FindingLess, BlockingOf(inspection.findings))
    ensures Plannable(inspection) ==>
      findings == Sort(FindingLess, Clashes(inspection.assignments, |inspection.assignments|))
    ensures Plannable(inspection) ==> (findings == [] <==> CanonicalKeysDistinct(inspection.assignments))
    ensures Plannable(inspection) && findings == [] ==> (
      && mappings == Renamings(inspection.assignments, |inspection.assignments|)
      && rendered == Some(Rewrite(inspection.text.value)))
    ensures Ascending(FindingLess, findings)
  {
    hide Rewrite, Lines, Describes, KeysDistinct, Keys, Classify, Inspected, Blocking, FindingLess,
      Ascending, StrictTotalOrder;
    FindingOrder();
    var blocking := [];
    for i := 0 to |inspection.findings|
      invariant blocking == BlockingOf(inspection.findings[..i])
    {
      assert inspection.findings[..i + 1][..i] == inspection.findings[..i];
      if Blocking(inspection.findings[i]) { blocking := blocking + [inspection.findings[i]]; }
    }
    assert inspection.findings[..|inspection.findings|] == inspection.findings;
    BlockingMembers(inspection.findings);
    SortMembers(FindingLess, blocking);
    SortAscends(FindingLess, blocking);
    if blocking != [] || inspection.text == None {
      if blocking == [] { assert Sort(FindingLess, blocking) == []; } else { assert blocking[0] in blocking; }
      return Sort(FindingLess, blocking), [], inspection.text;
    }
    var text, assignments := inspection.text.value, inspection.assignments;
    assert forall f | f in inspection.findings :: !Blocking(f);
    PlanReady(inspection);
    ClashesFound(assignments);
    var collisions, planned, replacements := PlanReplacements(assignments);
    SortMembers(FindingLess, collisions);
    SortAscends(FindingLess, collisions);
    if collisions != [] {
      return Sort(FindingLess, collisions), [], inspection.text;
    }
    var output := SpliceKeys(text, assignments, replacements);
    RewriteIsFinal(text);
    var remaining, _ := ParseEnvironment(output);
    SortMembers(FindingLess, FindingsOf(output));
    if remaining != [] {
      assert false;
    }
    return [], planned, Some(output);
  }

  /** Planning once more for the rewritten file yields no mapping and the same text. */
  lemma PlanningAgain(before: Inspection, after: Inspection)
    requires Inspected(before) && Plannable(before) && CanonicalKeysDistinct(before.assignments)
    requires Inspected(after) && after.text == Some(Rewrite(before.text.value))
    requires forall f | f in after.findings :: !IsFileProblem(f.kind)
    ensures Plannable(after) && CanonicalKeysDistinct(after.assignments)
    ensures Renamings(after.assignments, |after.assignments|) == [] && Rewrite(after.text.value) == after.text.value
  {
    PlanReady(before);
    RewriteIsFinal(before.text.value);
    hide Lines, Rewrite, Findings, Assignments, CanonicalKey;
    NothingRenamed(after.assignments, |after.assignments|);
  }

  lemma {:induction false} NothingRenamed(assignments: seq<Assignment>, n: nat)
    requires n <= |assignments| && forall a | a in assignments :: CanonicalKey(a.key) == a.key
    ensures Renamings(assignments, n) == []
  {
    if n > 0 { NothingRenamed(assignments, n - 1); }
  }
}
