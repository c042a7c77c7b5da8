/** tools/local_environment_hygiene.py: parsing a dotenv file and rewriting retired key names
    in place. */
module Dotenv {
  import opened Chars
  import opened Options
  import opened Ordering

  const RETIRED_PREFIX := "CQA_"
  const CANONICAL_PREFIX := "HIDLOOM_"

  // ----- lines ------------------------------------------------------------------------------

  function FirstBreak(text: string): (b: nat)
    ensures b <= |text| && (forall i | 0 <= i < b :: !IsBreak(text[i])) && (b < |text| ==> IsBreak(text[b]))
  {
    if text == [] || IsBreak(text[0]) then 0 else 1 + FirstBreak(text[1..])
  }

  /** The length of the first line with its line break; "\r\n" is one break. */
  function LineLength(text: string): (n: nat)
    ensures n <= |text| && (text != [] ==> n > 0)
  {
    var b := FirstBreak(text);
    if b == |text| then b
    else if text[b] == '\r' && b + 1 < |text| && text[b + 1] == '\n' then b + 2
    else b + 1
  }

  /** text.splitlines(keepends=True) */
  function Lines(text: string): (lines: seq<string>)
    ensures Join(lines) == text
  {
    if text == [] then [] else
      var n := LineLength(text);
      var rest := Lines(text[n..]);
      assert text == text[..n] + text[n..];
      [text[..n]] + rest
  }

  function Join(lines: seq<string>): string {
    if lines == [] then [] else lines[0] + Join(lines[1..])
  }

  // ----- the assignment pattern ----------------------------------------------------------------

  predicate IsBlank(c: char) { c == ' ' || c == '\t' }

  predicate IsKeyStart(c: char) { 'A' <= c <= 'Z' || 'a' <= c <= 'z' || c == '_' }

  predicate IsKeyChar(c: char) { IsKeyStart(c) || '0' <= c <= '9' }

  predicate Blanks(s: string) { forall c | c in s :: IsBlank(c) }

  predicate IsKey(s: string) { s != [] && IsKeyStart(s[0]) && forall c | c in s :: IsKeyChar(c) }

  /** `[ \t]*(?:export[ \t]+)?` */
  ghost predicate IsLead(s: string) {
    Blanks(s) || exists p: nat :: ExportAt(s, p)
  }

  ghost predicate ExportAt(s: string, p: nat) {
    p + 6 < |s| && Blanks(s[..p]) && s[p..p + 6] == "export" && Blanks(s[p + 6..])
  }

  /** The pattern of the tool, as a relation: the key is line[start..end]. */
  ghost predicate Matches(line: string, start: nat, end: nat) {
    start <= end <= |line| && IsLead(line[..start]) && IsKey(line[start..end]) && EqualsAfter(line, end)
  }

  /** `[ \t]*=` */
  ghost predicate EqualsAfter(line: string, end: nat) {
    exists m: nat :: end <= m < |line| && Blanks(line[end..m]) && line[m] == '='
  }

  function AfterBlanks(line: string, i: nat): (j: nat)
    requires i <= |line|
    ensures i <= j <= |line| && Blanks(line[i..j]) && (j < |line| ==> !IsBlank(line[j]))
    decreases |line| - i
  {
    if i < |line| && IsBlank(line[i]) then
      var j := AfterBlanks(line, i + 1);
      assert line[i..j] == [line[i]] + line[i + 1..j];
      j
    else i
  }

  function AfterKey(line: string, i: nat): (j: nat)
    requires i <= |line|
    ensures i <= j <= |line| && (forall c | c in line[i..j] :: IsKeyChar(c)) && (j < |line| ==> !IsKeyChar(line[j]))
    decreases |line| - i
  {
    if i < |line| && IsKeyChar(line[i]) then
      var j := AfterKey(line, i + 1);
      assert line[i..j] == [line[i]] + line[i + 1..j];
      j
    else i
  }

  /** The end of a key at `i` that is followed by an equals sign. */
  function KeyAt(line: string, i: nat): (end: Option<nat>)
    requires i <= |line|
    ensures end.Some? ==> i < end.value < |line|
  {
    if i < |line| && IsKeyStart(line[i]) then
      var e := AfterKey(line, i);
      var m := AfterBlanks(line, e);
      if m < |line| && line[m] == '=' then Some(e) else None
    else None
  }

  datatype Span = Span(start: nat, end: nat)

  /** The pattern as a scan: first with `export`, then without. */
  function MatchLine(line: string): (span: Option<Span>)
    ensures span.Some? ==> span.value.start < span.value.end < |line|
  {
    var i := AfterBlanks(line, 0);
    var j := if i + 6 < |line| && line[i..i + 6] == "export" then AfterBlanks(line, i + 6) else i;
    if j > i + 6 && KeyAt(line, j).Some? then Some(Span(j, KeyAt(line, j).value))
    else if KeyAt(line, i).Some? then Some(Span(i, KeyAt(line, i).value))
    else None
  }

  lemma KeyAtMatches(line: string, i: nat, end: nat)
    requires i <= end <= |line|
    ensures KeyAt(line, i) == Some(end) <==> IsKey(line[i..end]) && EqualsAfter(line, end)
  {
    if KeyAt(line, i) == Some(end) {
      var m := AfterBlanks(line, end);
      assert Blanks(line[end..m]) && line[m] == '=';
      assert line[i..end][0] == line[i];
    }
    if IsKey(line[i..end]) && EqualsAfter(line, end) {
      var m: nat :| end <= m < |line| && Blanks(line[end..m]) && line[m] == '=';
      assert line[i] == line[i..end][0];
      KeyEndsAt(line, i, end, m);
      BlanksEndAt(line, end, m);
    }
  }

  lemma {:induction false} BlanksEndAt(line: string, i: nat, m: nat)
    requires i <= m <= |line| && Blanks(line[i..m]) && (m < |line| ==> !IsBlank(line[m]))
    ensures AfterBlanks(line, i) == m
    decreases m - i
  {
  }

  lemma {:induction false} KeyEndsAt(line: string, i: nat, end: nat, m: nat)
    requires i <= end <= m < |line| && (forall c | c in line[i..end] :: IsKeyChar(c))
    requires Blanks(line[end..m]) && line[m] == '='
    ensures AfterKey(line, i) == end
    decreases end - i
  {
    if i < end {
      assert line[i] in line[i..end];
      assert line[i..end] == [line[i]] + line[i + 1..end];
      KeyEndsAt(line, i + 1, end, m);
    } else if end < m {
      assert line[end] in line[end..m];
    }
  }

  /** The scan finds the span exactly when the pattern matches with that span; in particular
      the pattern never matches in two ways. */
  lemma MatchLineIsPattern(line: string, start: nat, end: nat)
    ensures MatchLine(line) == Some(Span(start, end)) <==> Matches(line, start, end)
  {
    if MatchLine(line) == Some(Span(start, end)) {
      ScanIsMatch(line, start, end);
    }
    if Matches(line, start, end) {
      MatchIsScanned(line, start, end);
    }
  }

  lemma ScanIsMatch(line: string, start: nat, end: nat)
    requires MatchLine(line) == Some(Span(start, end))
    ensures Matches(line, start, end)
  {
    var i := AfterBlanks(line, 0);
    assert line[0..i] == line[..i];
    if start != i {
      assert line[..start][i..i + 6] == line[i..i + 6] && line[..start][..i] == line[..i]
        && line[..start][i + 6..] == line[i + 6..start];
      assert ExportAt(line[..start], i);
    }
    var e := AfterKey(line, start);
    assert start <= e <= |line| && KeyAt(line, start) == Some(end);
    KeyAtMatches(line, start, end);
  }

  lemma MatchIsScanned(line: string, start: nat, end: nat)
    requires Matches(line, start, end)
    ensures MatchLine(line) == Some(Span(start, end))
  {
    hide AfterBlanks, KeyAt, MatchLine, EqualsAfter, ExportAt;
    KeyAtMatches(line, start, end);
    assert line[start] == line[start..end][0];
    if Blanks(line[..start]) {
      PlainMatchIsScanned(line, start, end);
    } else {
      var p: nat :| ExportAt(line[..start], p);
      ExportMatchIsScanned(line, p, start, end);
    }
  }

  lemma PlainMatchIsScanned(line: string, start: nat, end: nat)
    requires start < |line| && Blanks(line[..start]) && IsKeyStart(line[start]) && KeyAt(line, start) == Some(end)
    ensures MatchLine(line) == Some(Span(start, end))
  {
    hide KeyAt, AfterBlanks;
    assert line[0..start] == line[..start];
    BlanksEndAt(line, 0, start);
    if start + 6 < |line| && line[start..start + 6] == "export" && AfterBlanks(line, start + 6) > start + 6 {
      ExportIsTheKey(line, start, end);
    }
  }

  lemma ExportMatchIsScanned(line: string, p: nat, start: nat, end: nat)
    requires start < |line| && ExportAt(line[..start], p) && IsKeyStart(line[start]) && KeyAt(line, start) == Some(end)
    ensures MatchLine(line) == Some(Span(start, end))
  {
    hide KeyAt, AfterBlanks;
    var lead := line[..start];
    assert lead[..p] == line[0..p] && lead[p..p + 6] == line[p..p + 6] && lead[p + 6..] == line[p + 6..start];
    assert line[p] == line[p..p + 6][0] == 'e';
    BlanksEndAt(line, 0, p);
    BlanksEndAt(line, p + 6, start);
    assert start > p + 6;
  }

  /** When the key itself is `export`, nothing after it is a key. */
  lemma ExportIsTheKey(line: string, start: nat, end: nat)
    requires start + 6 < |line| && line[start..start + 6] == "export" && AfterBlanks(line, start + 6) > start + 6
    requires KeyAt(line, start) == Some(end)
    ensures KeyAt(line, AfterBlanks(line, start + 6)) == None
  {
    var j := AfterBlanks(line, start + 6);
    assert IsBlank(line[start + 6]) by {
      assert line[start + 6] in line[start + 6..j];
    }
    assert forall k | start <= k < start + 6 :: line[k] == "export"[k - start] by {
      assert forall k | start <= k < start + 6 :: line[k] == line[start..start + 6][k - start];
    }
    assert forall k | start <= k < start + 6 :: IsKeyChar(line[k]);
    assert forall k | start <= k < end :: line[k] == line[start..end][k - start] && line[k] in line[start..end];
    assert end == start + 6;
  }

  // ----- parsing ------------------------------------------------------------------------------

  datatype FindingKind =
    | DuplicateName
    | RewriteCollision
    | InsecureMode
    | InvalidAssignment
    | NonRegularFile
    | NonUtf8File
    | RetiredName
    | SymlinkFile
    | UnreadableFile

  function KindText(kind: FindingKind): string {
    match kind
    case DuplicateName => "duplicate_environment_name"
    case RewriteCollision => "environment_rewrite_collision"
    case InsecureMode => "insecure_environment_mode"
    case InvalidAssignment => "invalid_environment_assignment"
    case NonRegularFile => "non_regular_environment_file"
    case NonUtf8File => "non_utf8_environment_file"
    case RetiredName => "retired_environment_name"
    case SymlinkFile => "symlink_environment_file"
    case UnreadableFile => "unreadable_environment_file"
  }

  /** Findings about the file itself, not about a line of it. */
  predicate IsFileProblem(kind: FindingKind) {
    kind in {InsecureMode, NonRegularFile, NonUtf8File, SymlinkFile, UnreadableFile}
  }

  /** The order of findings about one file: kind, line, key. */
  predicate FindingLess(a: Finding, b: Finding) {
    if a.kind != b.kind then StringLess(KindText(a.kind), KindText(b.kind))
    else if a.line != b.line then a.line < b.line
    else StringLess(a.key, b.key)
  }

  lemma KindTextsDiffer(a: FindingKind, b: FindingKind)
    requires KindText(a) == KindText(b)
    ensures a == b
  {
    assert |KindText(a)| == |KindText(b)|;
    assert KindText(a)[0] == KindText(b)[0] && KindText(a)[2] == KindText(b)[2] && KindText(a)[4] == KindText(b)[4];
  }

  lemma FindingOrder()
    ensures StrictTotalOrder(FindingLess)
  {
    hide KindText, StringLess;
    StringOrder();
    forall a: Finding, b: Finding
      ensures a == b || FindingLess(a, b) || FindingLess(b, a)
    {
      if KindText(a.kind) == KindText(b.kind) { KindTextsDiffer(a.kind, b.kind); }
    }
  }

  datatype Finding = Finding(kind: FindingKind, line: nat, key: string)

  datatype Assignment = Assignment(line: nat, key: string, start: nat, end: nat)

  datatype LineClass = Ignored | Invalid | Assigns(key: string, start: nat, end: nat)

  function Upper(c: char): char {
    if 'a' <= c <= 'z' then (c as int - 32) as char else c
  }

  predicate IsRetired(key: string) {
    |key| >= 4 && forall i | 0 <= i < 4 :: Upper(key[i]) == RETIRED_PREFIX[i]
  }

  function CanonicalKey(key: string): string {
    if IsRetired(key) then CANONICAL_PREFIX + key[4..] else key
  }

  /** The first character str.strip would keep. */
  function FirstVisible(line: string): (i: nat)
    ensures i <= |line| && (forall j | 0 <= j < i :: IsSpace(line[j])) && (i < |line| ==> !IsSpace(line[i]))
  {
    if line == [] || !IsSpace(line[0]) then 0 else 1 + FirstVisible(line[1..])
  }

  function Classify(line: string): (c: LineClass)
    ensures c.Assigns? ==> c.start < c.end < |line| && c.key == line[c.start..c.end]
  {
    var i := FirstVisible(line);
    if i == |line| || line[i] == '#' then Ignored
    else match MatchLine(line)
      case None => Invalid
      case Some(span) => Assigns(line[span.start..span.end], span.start, span.end)
  }

  function LineAssignments(line: string, n: nat): seq<Assignment> {
    match Classify(line)
    case Assigns(key, start, end) => [Assignment(n, key, start, end)]
    case _ => []
  }

  /** The assignments of the first n lines, in order; line numbers start at 1. */
  function Assignments(lines: seq<string>, n: nat): seq<Assignment>
    requires n <= |lines|
  {
    if n == 0 then [] else Assignments(lines, n - 1) + LineAssignments(lines[n - 1], n)
  }

  function Keys(assignments: seq<Assignment>): set<string> {
    set a | a in assignments :: a.key
  }

  function LineFindings(line: string, n: nat, seen: set<string>): seq<Finding> {
    match Classify(line)
    case Ignored => []
    case Invalid => [Finding(InvalidAssignment, n, "")]
    case Assigns(key, _, _) =>
      (if key in seen then [Finding(DuplicateName, n, key)] else [])
      + if IsRetired(key) then [Finding(RetiredName, n, key)] else []
  }

  function Findings(lines: seq<string>, n: nat): seq<Finding>
    requires n <= |lines|
  {
    if n == 0 then [] else Findings(lines, n - 1) + LineFindings(lines[n - 1], n, Keys(Assignments(lines, n - 1)))
  }

  /** The body of the loop over the lines. */
  method ParseLine(line: string, n: nat, keys: set<string>)
    returns (findings: seq<Finding>, assignments: seq<Assignment>)
    ensures findings == LineFindings(line, n, keys) && assignments == LineAssignments(line, n)
  {
    findings, assignments := [], [];
    var visible := FirstVisible(line);
    if visible == |line| || line[visible] == '#' { return; }
    var found := MatchLine(line);
    if found == None {
      return [Finding(InvalidAssignment, n, "")], [];
    }
    var key := line[found.value.start..found.value.end];
    assignments := [Assignment(n, key, found.value.start, found.value.end)];
    if key in keys {
      findings := findings + [Finding(DuplicateName, n, key)];
    }
    if IsRetired(key) {
      findings := findings + [Finding(RetiredName, n, key)];
    }
  }

  /** parse_environment */
  method ParseEnvironment(text: string) returns (findings: seq<Finding>, assignments: seq<Assignment>)
    ensures findings == Sort(FindingLess, Findings(Lines(text), |Lines(text)|)) && Ascending(FindingLess, findings)
    ensures assignments == Assignments(Lines(text), |Lines(text)|)
  {
    hide Lines, LineFindings, LineAssignments, FindingLess, StrictTotalOrder, Ascending;
    var lines := Lines(text);
    var keys := {};
    findings, assignments := [], [];
    for i := 0 to |lines|
      invariant findings == Findings(lines, i) && assignments == Assignments(lines, i)
      invariant keys == Keys(assignments)
    {
      var found, added := ParseLine(lines[i], i + 1, keys);
      KeysGrow(assignments, added);
      findings, assignments := findings + found, assignments + added;
      keys := keys + Keys(added);
    }
    FindingOrder();
    SortAscends(FindingLess, findings);
    findings := Sort(FindingLess, findings);
  }

  lemma KeysGrow(assignments: seq<Assignment>, added: seq<Assignment>)
    ensures Keys(assignments + added) == Keys(assignments) + Keys(added)
  {
  }

  // ----- the rewritten text ---------------------------------------------------------------------

  /** Only the key span changes. */
  function RewriteLine(line: string): string {
    match Classify(line)
    case Assigns(key, start, end) => line[..start] + CanonicalKey(key) + line[end..]
    case _ => line
  }

  function RewriteLines(lines: seq<string>): seq<string> {
    seq(|lines|, i requires 0 <= i < |lines| => RewriteLine(lines[i]))
  }

  function Rewrite(text: string): string {
    Join(RewriteLines(Lines(text)))
  }

  lemma AssignsSpan(line: string)
    requires Classify(line).Assigns?
    ensures var c := Classify(line);
      && c.start < c.end < |line| && c.key == line[c.start..c.end] && Matches(line, c.start, c.end)
      && IsKey(c.key) && FirstVisible(line) < |line| && line[FirstVisible(line)] != '#'
  {
    var c := Classify(line);
    MatchLineIsPattern(line, c.start, c.end);
  }

  lemma CanonicalIsKey(key: string)
    requires IsKey(key)
    ensures IsKey(CanonicalKey(key)) && !IsRetired(CanonicalKey(key))
      && CanonicalKey(CanonicalKey(key)) == CanonicalKey(key)
    ensures CanonicalKey(key) == key <==> !IsRetired(key)
  {
    var new_ := CanonicalKey(key);
    if IsRetired(key) {
      assert new_[0] == 'H' && CANONICAL_PREFIX[0] == 'H';
      forall c | c in new_
        ensures IsKeyChar(c)
      {
        if c !in CANONICAL_PREFIX { assert c in key[4..]; assert c in key; }
      }
      assert Upper(new_[0]) == 'H' != RETIRED_PREFIX[0];
      assert Upper(key[0]) == RETIRED_PREFIX[0];
    }
  }

  /** Putting another key in place of the matched one gives a match for that key. */
  lemma SplicedMatches(line: string, start: nat, end: nat, key: string)
    requires Matches(line, start, end) && IsKey(key)
    ensures Matches(line[..start] + key + line[end..], start, start + |key|)
  {
    var out, end' := line[..start] + key + line[end..], start + |key|;
    assert out[..start] == line[..start] && out[start..end'] == key;
    var m: nat :| end <= m < |line| && Blanks(line[end..m]) && line[m] == '=';
    var m' := m - end + end';
    assert out[end'..m'] == line[end..m];
    assert out[m'] == line[m];
  }

  lemma ClassifyMatch(line: string, start: nat, end: nat)
    requires Matches(line, start, end) && FirstVisible(line) < |line| && line[FirstVisible(line)] != '#'
    ensures Classify(line) == Assigns(line[start..end], start, end)
  {
    MatchLineIsPattern(line, start, end);
  }

  lemma Spliced(line: string, start: nat, end: nat, key: string)
    requires start < end <= |line| && key != []
    ensures var out := line[..start] + key + line[end..];
      out[..start] == line[..start] && out[start..start + |key|] == key && out[start] == key[0] && start < |out|
  {
  }

  /** The rewritten line is an assignment of the canonical key, at the same start. */
  lemma RewrittenLine(line: string)
    ensures match Classify(line)
      case Assigns(key, start, end) =>
        Classify(RewriteLine(line)) == Assigns(CanonicalKey(key), start, start + |CanonicalKey(key)|)
      case other => RewriteLine(line) == line
  {
    hide Matches, FirstVisible, CanonicalKey, IsRetired, Classify;
    if Classify(line).Assigns? {
      var c, out := Classify(line), RewriteLine(line);
      var canonical := CanonicalKey(c.key);
      AssignsSpan(line);
      CanonicalIsKey(c.key);
      SplicedMatches(line, c.start, c.end, canonical);
      Spliced(line, c.start, c.end, canonical);
      SameFirstVisible(line, out, c.start);
      ClassifyMatch(out, c.start, c.start + |canonical|);
    }
  }

  /** Up to the key the two lines agree, and both keys begin with a visible character. */
  lemma SameFirstVisible(line: string, out: string, start: nat)
    requires start < |line| && start < |out| && line[..start] == out[..start]
    requires IsKeyStart(line[start]) && IsKeyStart(out[start])
    ensures FirstVisible(out) == FirstVisible(line) <= start
    ensures line[FirstVisible(line)] == '#' <==> out[FirstVisible(out)] == '#'
  {
    var i, j := FirstVisible(line), FirstVisible(out);
    assert !IsSpace(line[start]) && !IsSpace(out[start]);
    assert forall k | 0 <= k < start :: line[k] == line[..start][k] == out[..start][k] == out[k];
    assert i < start ==> !IsSpace(out[i]);
    assert j < start ==> !IsSpace(line[j]);
  }

  // ----- the rewritten text has the rewritten lines -------------------------------------------------

  lemma {:induction false} FirstBreakIs(text: string, b: nat)
    requires b <= |text| && (forall i | 0 <= i < b :: !IsBreak(text[i])) && (b < |text| ==> IsBreak(text[b]))
    ensures FirstBreak(text) == b
  {
  }

  /** Same first character, as far as line breaks are concerned. */
  predicate SameHead(a: string, b: string) {
    (a == [] <==> b == []) && (a != [] ==> (a[0] == '\n' <==> b[0] == '\n'))
  }

  lemma RewrittenHead(line: string)
    requires line != []
    ensures SameHead(line, RewriteLine(line))
  {
  }

  lemma LeadHasNoBreak(lead: string)
    requires IsLead(lead)
    ensures forall i | 0 <= i < |lead| :: !IsBreak(lead[i])
  {
    if Blanks(lead) {
      assert forall i | 0 <= i < |lead| :: lead[i] in lead;
    } else {
      var p: nat :| ExportAt(lead, p);
      forall i | 0 <= i < |lead|
        ensures !IsBreak(lead[i])
      {
        if i < p { assert lead[..p][i] in lead[..p]; }
        else if i < p + 6 { assert lead[i] == "export"[i - p] by { assert lead[i] == lead[p..p + 6][i - p]; } }
        else { assert lead[p + 6..][i - p - 6] in lead[p + 6..]; }
      }
    }
  }

  /** An assignment has its key, and the equals sign after it, before the line break. */
  lemma KeyBeforeBreak(text: string)
    requires text != [] && Classify(text[..LineLength(text)]).Assigns?
    ensures Classify(text[..LineLength(text)]).end <= FirstBreak(text)
  {
    hide Classify, IsLead, EqualsAfter, FirstVisible, MatchLine, CanonicalKey;
    var line := text[..LineLength(text)];
    AssignsSpan(line);
    var c, b := Classify(line), FirstBreak(text);
    LeadHasNoBreak(line[..c.start]);
    assert forall i | 0 <= i < c.start :: line[i] == line[..c.start][i];
    assert forall i | c.start <= i < c.end :: line[i] == c.key[i - c.start] && line[i] in c.key;
    assert b < |line| ==> line[b] == text[b];
  }

  lemma SplicedChars(text: string, start: nat, end: nat, n: nat, key: string, rest': string, out: string)
    requires start <= end <= n <= |text| && out == text[..start] + key + text[end..n] + rest'
    ensures forall i | 0 <= i < start :: out[i] == text[i]
    ensures forall i | start <= i < start + |key| :: out[i] == key[i - start]
    ensures forall i | end <= i < n :: out[i - (end - start) + |key|] == text[i]
    ensures |out| == n - (end - start) + |key| + |rest'|
  {
  }

  /** Replacing break-free text before the first break moves the break along. */
  lemma SplicedBreak(text: string, start: nat, end: nat, key: string, rest': string, out: string)
    requires start <= end <= FirstBreak(text) && (forall i | 0 <= i < |key| :: !IsBreak(key[i]))
    requires FirstBreak(text) == |text| ==> rest' == []
    requires out == text[..start] + key + text[end..LineLength(text)] + rest'
    ensures FirstBreak(out) == FirstBreak(text) - (end - start) + |key|
  {
    var n, b, shift := LineLength(text), FirstBreak(text), |key| - (end - start);
    SplicedChars(text, start, end, n, key, rest', out);
    forall i | 0 <= i < b + shift
      ensures !IsBreak(out[i])
    {
      hide IsBreak;
      if start + |key| <= i { assert out[(i - shift) - (end - start) + |key|] == text[i - shift]; }
    }
    if b < n { assert out[b - (end - start) + |key|] == text[b]; }
    FirstBreakIs(out, b + shift);
  }

  /** Replacing break-free text before the first break keeps where the first line ends. */
  lemma SplicedLineLength(text: string, start: nat, end: nat, key: string, rest': string)
    requires start <= end <= FirstBreak(text) && (forall i | 0 <= i < |key| :: !IsBreak(key[i]))
    requires SameHead(text[LineLength(text)..], rest')
    ensures var n := LineLength(text);
      LineLength(text[..start] + key + text[end..n] + rest') == n - (end - start) + |key|
  {
    hide IsBreak;
    var n, b := LineLength(text), FirstBreak(text);
    var out, shift := text[..start] + key + text[end..n] + rest', |key| - (end - start);
    SplicedBreak(text, start, end, key, rest', out);
    SplicedChars(text, start, end, n, key, rest', out);
    if b < n {
      assert out[b - (end - start) + |key|] == text[b];
      if n == b + 2 {
        assert out[(b + 1) - (end - start) + |key|] == text[b + 1];
      } else if n < |text| {
        assert out[n + shift] == rest'[0] && text[n..][0] == text[n];
      }
    }
  }

  lemma KeyHasNoBreak(key: string)
    requires IsKey(key)
    ensures forall k | 0 <= k < |key| :: !IsBreak(key[k])
  {
    assert forall k | 0 <= k < |key| :: key[k] in key;
  }

  /** Rewriting the first line keeps where it ends. */
  lemma FirstLineEnds(text: string, rest': string)
    requires text != [] && SameHead(text[LineLength(text)..], rest')
    ensures var line' := RewriteLine(text[..LineLength(text)]);
      LineLength(line' + rest') == |line'|
  {
    var n := LineLength(text);
    var line := text[..n];
    var c := Classify(line);
    if c.Assigns? {
      KeyBeforeBreak(text);
      AssignsSpan(line);
      CanonicalIsKey(c.key);
      KeyHasNoBreak(CanonicalKey(c.key));
    }
    hide Classify, CanonicalKey, Matches, IsRetired, LineLength, SameHead, IsKey, IsBreak, FirstBreak, IsBlank;
    if c.Assigns? {
      SplicedLineLength(text, c.start, c.end, CanonicalKey(c.key), rest');
      assert line[..c.start] == text[..c.start] && line[c.end..] == text[c.end..n];
    } else {
      SplicedLineLength(text, 0, 0, "", rest');
      assert text[..0] + "" + text[0..n] + rest' == line + rest';
    }
  }

  lemma {:induction false} RewriteKeepsLines(text: string)
    ensures Lines(Rewrite(text)) == RewriteLines(Lines(text))
    ensures SameHead(text, Rewrite(text))
    decreases |text|
  {
    hide RewriteLine, FirstBreak, IsBreak;
    if text != [] {
      var n := LineLength(text);
      var line, rest := text[..n], text[n..];
      RewriteKeepsLines(rest);
      FirstLineEnds(text, Rewrite(rest));
      RewrittenHead(line);
      var line', out := RewriteLine(line), Rewrite(text);
      assert RewriteLines(Lines(text)) == [line'] + RewriteLines(Lines(rest));
      assert out == line' + Rewrite(rest);
      assert out[..|line'|] == line' && out[|line'|..] == Rewrite(rest);
    }
  }

  // ----- parsing the rewritten text ---------------------------------------------------------------

  function Renamed(a: Assignment): Assignment {
    Assignment(a.line, CanonicalKey(a.key), a.start, a.start + |CanonicalKey(a.key)|)
  }

  function RenamedAll(assignments: seq<Assignment>): seq<Assignment> {
    seq(|assignments|, i requires 0 <= i < |assignments| => Renamed(assignments[i]))
  }

  /** Two assignments never end up with the same name. */
  predicate CanonicalKeysDistinct(assignments: seq<Assignment>) {
    forall i, j | 0 <= i < j < |assignments| :: CanonicalKey(assignments[i].key) != CanonicalKey(assignments[j].key)
  }

  predicate Blocking(f: Finding) { f.kind != RetiredName }

  lemma RenamedAppend(a: seq<Assignment>, b: seq<Assignment>)
    ensures RenamedAll(a + b) == RenamedAll(a) + RenamedAll(b)
  {
  }

  lemma RewrittenLineAssignments(line: string, n: nat)
    ensures LineAssignments(RewriteLine(line), n) == RenamedAll(LineAssignments(line, n))
  {
    RewrittenLine(line);
    hide Classify, RewriteLine, CanonicalKey;
  }

  lemma {:induction false} RewrittenAssignments(lines: seq<string>, n: nat)
    requires n <= |lines|
    ensures Assignments(RewriteLines(lines), n) == RenamedAll(Assignments(lines, n))
  {
    hide LineAssignments, RewriteLine;
    if n > 0 {
      RewrittenAssignments(lines, n - 1);
      RewrittenLineAssignments(lines[n - 1], n);
      RenamedAppend(Assignments(lines, n - 1), LineAssignments(lines[n - 1], n));
      assert RewriteLines(lines)[n - 1] == RewriteLine(lines[n - 1]);
    }
  }

  /** With no blocking finding and distinct canonical names, the rewritten text is clean. */
  lemma {:induction false} RewrittenIsClean(lines: seq<string>, n: nat)
    requires n <= |lines| && CanonicalKeysDistinct(Assignments(lines, n))
    requires forall f | f in Findings(lines, n) :: !Blocking(f)
    ensures Findings(RewriteLines(lines), n) == []
  {
    hide LineAssignments, LineFindings, RewriteLine, CanonicalKey, Blocking, CanonicalKeysDistinct, Keys, RenamedAll;
    if n > 0 {
      AllDistinctBefore(Assignments(lines, n - 1), LineAssignments(lines[n - 1], n));
      var before, line := Assignments(lines, n - 1), lines[n - 1];
      assert Assignments(lines, n) == before + LineAssignments(line, n);
      assert forall f | f in Findings(lines, n - 1) :: f in Findings(lines, n);
      RewrittenIsClean(lines, n - 1);
      RewrittenAssignments(lines, n - 1);
      assert RewriteLines(lines)[n - 1] == RewriteLine(line);
      assert forall f | f in LineFindings(line, n, Keys(before)) :: f in Findings(lines, n);
      LineIsClean(line, n, before);
    }
  }

  lemma AllDistinctBefore(before: seq<Assignment>, added: seq<Assignment>)
    requires CanonicalKeysDistinct(before + added)
    ensures CanonicalKeysDistinct(before)
  {
    assert forall i | 0 <= i < |before| :: (before + added)[i] == before[i];
  }

  lemma LineIsClean(line: string, n: nat, before: seq<Assignment>)
    requires forall f | f in LineFindings(line, n, Keys(before)) :: !Blocking(f)
    requires CanonicalKeysDistinct(before + LineAssignments(line, n))
    ensures LineFindings(RewriteLine(line), n, Keys(RenamedAll(before))) == []
  {
    RewrittenLine(line);
    assert Classify(line).Invalid? ==> Finding(InvalidAssignment, n, "") in LineFindings(line, n, Keys(before));
    match Classify(line)
    case Ignored =>
    case Invalid =>
    case Assigns(key, start, end) =>
      AssignsSpan(line);
      CanonicalIsKey(key);
      var all := before + LineAssignments(line, n);
      hide Classify, CanonicalKey, IsRetired;
      forall a | a in RenamedAll(before)
        ensures a.key != CanonicalKey(key)
      {
        var i :| 0 <= i < |before| && RenamedAll(before)[i] == a;
        assert all[i] == before[i] && all[|before|].key == key;
      }
  }

  /** What a rewrite promises, all in one: the same lines with the same line numbers and key
      positions, canonical and pairwise different names, nothing to report, and a second
      rewrite changes nothing. */
  lemma RewriteIsFinal(text: string)
    requires forall f | f in Findings(Lines(text), |Lines(text)|) :: !Blocking(f)
    requires CanonicalKeysDistinct(Assignments(Lines(text), |Lines(text)|))
    ensures var lines, after := Lines(text), Lines(Rewrite(text));
      && |after| == |lines| && (forall i | 0 <= i < |lines| :: after[i] == RewriteLine(lines[i]))
      && Assignments(after, |after|) == RenamedAll(Assignments(lines, |lines|))
      && Findings(after, |after|) == []
      && (forall a | a in Assignments(after, |after|) :: !IsRetired(a.key) && CanonicalKey(a.key) == a.key)
      && CanonicalKeysDistinct(Assignments(after, |after|))
      && Rewrite(Rewrite(text)) == Rewrite(text)
  {
    hide Lines, Findings, Assignments, RewriteLine, CanonicalKey, IsRetired;
    var lines, after := Lines(text), Lines(Rewrite(text));
    RewriteKeepsLines(text);
    RewrittenAssignments(lines, |lines|);
    RewrittenIsClean(lines, |lines|);
    CleanNames(lines, |lines|);
    RenamedStayDistinct(Assignments(lines, |lines|));
    forall i | 0 <= i < |lines|
      ensures RewriteLine(after[i]) == after[i]
    {
      RewriteTwice(lines[i]);
    }
    assert RewriteLines(after) == after;
  }

  lemma RenamedStayDistinct(assignments: seq<Assignment>)
    requires CanonicalKeysDistinct(assignments)
    requires forall a | a in RenamedAll(assignments) :: CanonicalKey(a.key) == a.key
    ensures CanonicalKeysDistinct(RenamedAll(assignments))
  {
  }

  lemma ThreeParts(s: string, i: nat, j: nat)
    requires i <= j <= |s|
    ensures s[..i] + s[i..j] + s[j..] == s
  {
  }

  lemma CanonicalLineStays(line: string)
    requires Classify(line).Assigns? ==> CanonicalKey(Classify(line).key) == Classify(line).key
    ensures RewriteLine(line) == line
  {
    if Classify(line).Assigns? {
      hide CanonicalKey, FirstVisible, MatchLine;
      ThreeParts(line, Classify(line).start, Classify(line).end);
    }
  }

  lemma RewriteTwice(line: string)
    ensures RewriteLine(RewriteLine(line)) == RewriteLine(line)
  {
    RewrittenLine(line);
    if Classify(line).Assigns? {
      AssignsSpan(line);
      CanonicalIsKey(Classify(line).key);
      CanonicalLineStays(RewriteLine(line));
    }
  }

  lemma AssignedName(line: string, n: nat)
    ensures forall a | a in LineAssignments(line, n) :: IsKey(a.key)
  {
  }

  lemma {:induction false} AssignedNames(lines: seq<string>, n: nat)
    requires n <= |lines|
    ensures forall a | a in Assignments(lines, n) :: IsKey(a.key)
  {
    hide IsKey, LineAssignments;
    if n > 0 {
      AssignedNames(lines, n - 1);
      AssignedName(lines[n - 1], n);
    }
  }

  lemma CleanNames(lines: seq<string>, n: nat)
    requires n <= |lines|
    ensures forall a | a in Assignments(lines, n) :: IsKey(a.key)
    ensures forall a | a in RenamedAll(Assignments(lines, n)) :: !IsRetired(a.key) && CanonicalKey(a.key) == a.key
  {
    hide CanonicalKey, IsRetired, Classify, IsKey;
    AssignedNames(lines, n);
    forall a | a in RenamedAll(Assignments(lines, n))
      ensures !IsRetired(a.key) && CanonicalKey(a.key) == a.key
    {
      var i :| 0 <= i < |Assignments(lines, n)| && RenamedAll(Assignments(lines, n))[i] == a;
      CanonicalIsKey(Assignments(lines, n)[i].key);
    }
  }
}
