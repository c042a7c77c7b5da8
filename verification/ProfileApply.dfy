/** script/apply_device_profile.py: applying a device profile file by file. */
module ProfileApply {
  import opened Options
  import opened Files
  import opened ProfileRecovery

  const DROPIN_NAME := "10-hidloom-device-profile.conf"
  const DROPIN_HEADER := "# Managed by hidloom-profile; sha256="
  const FLICK_NAME := "flick.json"
  const MARKER_NAME := "device_profile.json"

  /** Exact contents of the drop-ins written by the original touch profile. */
  const LEGACY_DROPINS: map<string, string> := map[
    "logicd.service" := "[Unit]\nWants=\nWants=dev-hidg0.device\n\n[Service]\nEnvironment=\"LOGICD_MATRIX_ROWS=16\"\n"
      + "Environment=\"LOGICD_MATRIX_COLS=16\"\nEnvironment=\"LOGICD_OUTPUTS=auto\"\n",
    "httpd.service" := "[Unit]\nAfter=\nAfter=logicd.service\nWants=\nWants=logicd.service\n",
    "viald.service" := "[Unit]\nAfter=\nAfter=hidloom-usb-gadget.service logicd.service\n"
  ]

  // ----- copying and removing runtime files -----------------------------------------------

  /** `after` is `before` with `p` set to `node` (or removed), plus, when `p` held a file and
      backups are on, one fresh backup with its old bytes and mode. */
  ghost predicate Changed(before: FileMap, after: FileMap, p: Path, node: Option<Node>, backup: bool) {
    if backup && p in before then
      exists saved ::
        && saved !in before && IsBackupOf(saved, p)
        && after == With(before[saved := before[p]], p, node)
    else
      after == With(before, p, node)
  }

  function With(files: FileMap, p: Path, node: Option<Node>): FileMap {
    match node
    case None => files - {p}
    case Some(n) => files[p := n]
  }

  /** The ghost state of an apply: the baseline, and the paths still promised recoverable.
      Nothing is promised without backups. */
  datatype Promise = Promise(base: Baseline, paths: set<Path>) {
    ghost predicate Holds(files: FileMap) { Safe(base, files, paths) }
  }

  /** Replacing or removing a tracked file right after backing it up keeps the promise. */
  lemma ChangeKeepsPromise(promise: Promise, before: FileMap, after: FileMap, p: Path, node: Option<Node>, backup: bool)
    requires promise.Holds(before) && p in promise.base.before && (promise.paths != {} ==> backup)
    requires Changed(before, after, p, node, backup)
    requires match node case Some(n) => n.Regular? case None => forall q :: !IsBackupOf(p, q)
    ensures promise.Holds(after)
  {
    var base, paths := promise.base, promise.paths;
    if backup && p in before {
      var saved :| saved !in before && IsBackupOf(saved, p) && after == With(before[saved := before[p]], p, node);
      var copied := before[saved := before[p]];
      BackupComesLater(saved, p);
      assert copied - {saved} == before;
      DisturbingIsSafe(base, paths, before, copied, saved);
      assert after - {p} == copied - {p};
      ChangeAfterBackup(base, paths, copied, after, p, saved);
    } else if p !in before {
      assert after - {p} == before;
      DisturbingIsSafe(base, paths, before, after, p);
    } else {
      assert paths == {} && after - {p} == before - {p};
      ChangeUnprotected(base, before, after, p);
    }
  }

  /** Files with the marker's name are as they were. */
  ghost predicate MarkersKept(before: FileMap, after: FileMap) {
    forall p: Path | p.name == MARKER_NAME :: (p in before <==> p in after) && (p in before ==> after[p] == before[p])
  }

  lemma MarkersKeptAtFirst(files: FileMap)
    ensures MarkersKept(files, files)
  {
  }

  lemma MarkersKeptTwice(a: FileMap, b: FileMap, c: FileMap)
    requires MarkersKept(a, b) && MarkersKept(b, c)
    ensures MarkersKept(a, c)
  {
  }

  lemma MarkersKeptBeside(before: FileMap, after: FileMap, p: Path)
    requires after - {p} == before - {p} && p.name != MARKER_NAME
    ensures MarkersKept(before, after)
  {
    SameElsewhere(before, after, p);
  }

  /** Backups and temporaries have other names than the marker. */
  lemma HelpersAreNoMarkers(helper: Path, p: Path)
    requires IsBackupOf(helper, p) || IsTemporaryOf(helper, p)
    ensures helper.name != MARKER_NAME
  {
    if IsBackupOf(helper, p) {
      CopyHasOtherName(helper, p);
    } else {
      assert ("." + p.name + ".")[0] == '.' == helper.name[0];
    }
  }

  method CopyFile(ghost promise: Promise, disk: Disk, src: Path, dst: Path, dryRun: bool,
                  backup: bool, timestamp: string)
    returns (ok: bool)
    requires promise.Holds(disk.files) && dst in promise.base.before && (promise.paths != {} ==> backup)
    modifies disk`files, disk`faults
    ensures old(disk.faults) <= disk.faults
    ensures promise.Holds(disk.files)
    ensures dryRun ==> disk.files == old(disk.files)
    ensures ok ==> Exists(old(disk.files), src)
    ensures ok && !dryRun ==> IsRegular(old(disk.files), src)
    ensures ok ==> disk.faults == old(disk.faults)
    ensures IsRegular(old(disk.files), src) && disk.faults == old(disk.faults) ==> ok
    ensures ok && !dryRun ==>
      Changed(old(disk.files), disk.files, dst, Some(Regular(DEFAULT_MODE, old(disk.files)[src].content)), backup)
    ensures old(disk.files).Keys <= disk.files.Keys
    ensures dst.name != MARKER_NAME ==> MarkersKept(old(disk.files), disk.files)
  {
    if !Exists(disk.files, src) { return false; }
    if dryRun { return true; }
    ok := disk.Step();
    if !ok { return; }
    if Exists(disk.files, dst) && backup {
      var saved, _ := disk.FreshBackup(dst, timestamp);
      ok := disk.CopyToFresh(dst, saved);
      assert ok ==> disk.files - {saved} == old(disk.files);
      DisturbingIsSafe(promise.base, promise.paths, old(disk.files), disk.files, saved);
      DisturbedKeeps(old(disk.files), disk.files, saved);
      HelpersAreNoMarkers(saved, dst);
      MarkersKeptBeside(old(disk.files), disk.files, saved);
      if !ok { return; }
    }
    if !IsRegular(disk.files, src) { return false; }
    var data := disk.files[src].content;
    ghost var copied := disk.files;
    var written, replaced := AtomicContent(disk, dst, data, DEFAULT_MODE);
    ok := written;
    if replaced {
      if dst.name != MARKER_NAME { MarkersKeptBeside(copied, disk.files, dst); }
      assert Changed(old(disk.files), disk.files, dst, Some(Regular(DEFAULT_MODE, data)), backup);
      ChangeKeepsPromise(promise, old(disk.files), disk.files, dst, Some(Regular(DEFAULT_MODE, data)), backup);
    } else {
      ghost var t :| IsTemporaryOf(t, dst) && t != dst && Disturbed(copied, disk.files, t);
      DisturbingIsSafe(promise.base, promise.paths, copied, disk.files, t);
      DisturbedKeeps(copied, disk.files, t);
      HelpersAreNoMarkers(t, dst);
      MarkersKeptBeside(copied, disk.files, t);
    }
  }

  lemma DisturbedKeeps(before: FileMap, after: FileMap, t: Path)
    requires Disturbed(before, after, t)
    ensures forall p | p in before :: p in after && after[p] == before[p]
  {
  }

  method RemoveRuntimeFile(ghost promise: Promise, disk: Disk, path: Path, dryRun: bool,
                           backup: bool, timestamp: string)
    returns (ok: bool)
    requires promise.Holds(disk.files) && path in promise.base.before && (promise.paths != {} ==> backup)
    requires forall q :: !IsBackupOf(path, q)
    modifies disk`files, disk`faults
    ensures old(disk.faults) <= disk.faults
    ensures promise.Holds(disk.files)
    ensures dryRun ==> disk.files == old(disk.files)
    ensures ok && !dryRun ==> if path in old(disk.files) then Changed(old(disk.files), disk.files, path, None, backup)
                              else disk.files == old(disk.files)
    ensures forall p | p in old(disk.files) && p != path :: p in disk.files
    ensures ok <==> disk.faults == old(disk.faults)
    ensures path.name != MARKER_NAME ==> MarkersKept(old(disk.files), disk.files)
  {
    if !Exists(disk.files, path) { return true; }
    if dryRun { return true; }
    ok := disk.Step();
    if !ok { return; }
    if backup {
      var saved, _ := disk.FreshBackup(path, timestamp);
      ok := disk.CopyToFresh(path, saved);
      assert ok ==> disk.files - {saved} == old(disk.files);
      DisturbingIsSafe(promise.base, promise.paths, old(disk.files), disk.files, saved);
      DisturbedKeeps(old(disk.files), disk.files, saved);
      HelpersAreNoMarkers(saved, path);
      MarkersKeptBeside(old(disk.files), disk.files, saved);
      if !ok { return; }
    }
    ghost var copied := disk.files;
    ok := disk.Unlink(path);
    if ok {
      if path.name != MARKER_NAME { MarkersKeptBeside(copied, disk.files, path); }
      assert Changed(old(disk.files), disk.files, path, None, backup);
      ChangeKeepsPromise(promise, old(disk.files), disk.files, path, None, backup);
    }
  }

  /** In the names the tool itself writes, no dot is followed by a `b`. */
  lemma NoDotB(name: string, k: nat)
    requires name in {DROPIN_NAME, FLICK_NAME, MARKER_NAME} && k + 1 < |name| && name[k] == '.'
    ensures name[k + 1] != 'b'
  {
  }

  lemma OwnNamesAreNoBackups(p: Path)
    requires p.name in {DROPIN_NAME, FLICK_NAME, MARKER_NAME}
    ensures forall q :: !IsBackupOf(p, q)
  {
    forall q
      ensures !IsBackupOf(p, q)
    {
      if IsBackupOf(p, q) {
        var k, start := |q.name|, q.name + ".bak.";
        assert start[k] == '.' && start[k + 1] == 'b';
        NoDotB(p.name, k);
        assert false;
      }
    }
  }

  // ----- drop-ins ------------------------------------------------------------------------

  type Hash = string -> string

  /** Hex digests contain no newline. */
  ghost predicate OneLine(sha: Hash) {
    forall body :: '\n' !in sha(body)
  }

  function DropinPath(etc: seq<string>, unit: string): Path {
    Path(etc + [unit + ".d"], DROPIN_NAME)
  }

  /** What the glob `*.d/<DROPIN_NAME>` under the systemd directory matches. */
  predicate IsDropinPath(etc: seq<string>, p: Path) {
    && p.name == DROPIN_NAME && |p.dir| == |etc| + 1 && p.dir[..|etc|] == etc
    && |p.dir[|etc|]| >= 2 && p.dir[|etc|][|p.dir[|etc|]| - 2..] == ".d"
  }

  /** Header line with the digest of the body, then the body. */
  function Managed(sha: Hash, body: string): string {
    DROPIN_HEADER + sha(body) + "\n" + body
  }

  /** planned_dropins, for units whose bodies are already rendered. */
  function PlannedDropins(sha: Hash, etc: seq<string>, dropins: map<string, string>): (desired: map<Path, string>)
    ensures forall unit | unit in dropins :: DropinPath(etc, unit) in desired
    ensures forall p | p in desired :: IsDropinPath(etc, p)
    ensures forall unit | unit in dropins ::
      desired[DropinPath(etc, unit)] == DROPIN_HEADER + sha(dropins[unit]) + "\n" + dropins[unit]
    ensures forall p | p in desired :: exists unit :: unit in dropins && p == DropinPath(etc, unit)
  {
    DropinPathsDiffer(etc);
    assert forall unit | unit in dropins :: IsDropinPath(etc, DropinPath(etc, unit)) by {
      forall unit | unit in dropins
        ensures IsDropinPath(etc, DropinPath(etc, unit))
      {
        assert (unit + ".d")[|unit|..] == ".d";
      }
    }
    map unit | unit in dropins :: DropinPath(etc, unit) := Managed(sha, dropins[unit])
  }

  lemma DropinPathsDiffer(etc: seq<string>)
    ensures forall u, v :: DropinPath(etc, u) == DropinPath(etc, v) ==> u == v
  {
    forall u, v | DropinPath(etc, u) == DropinPath(etc, v)
      ensures u == v
    {
      assert DropinPath(etc, u).dir[|etc|] == u + ".d" && DropinPath(etc, v).dir[|etc|] == v + ".d";
      assert u == (u + ".d")[..|u|] && v == (v + ".d")[..|v|];
    }
  }

  /** The drop-ins are the files of one name in the directories of units, signed on a first line. */
  lemma DropinsAre(sha: Hash, etc: seq<string>, p: Path, unit: string, body: string)
    ensures IsDropinPath(etc, p)
      <==> exists stem :: p == Path(etc + [stem + ".d"], "10-hidloom-device-profile.conf")
    ensures DropinPath(etc, unit) == Path(etc + [unit + ".d"], "10-hidloom-device-profile.conf")
    ensures Managed(sha, body) == "# Managed by hidloom-profile; sha256=" + sha(body) + "\n" + body
  {
    if IsDropinPath(etc, p) {
      var last := p.dir[|etc|];
      var stem := last[..|last| - 2];
      assert last == stem + ".d" && p.dir == etc + [last];
    }
    if stem :| p == Path(etc + [stem + ".d"], "10-hidloom-device-profile.conf") {
      assert (stem + ".d")[|stem|..] == ".d";
      assert p.dir[|etc|] == stem + ".d" && p.dir[..|etc|] == etc;
    }
  }

  function FirstNewline(content: string): (k: nat)
    ensures k <= |content|
    ensures '\n' !in content[..k] && (k < |content| ==> content[k] == '\n')
  {
    if content == [] || content[0] == '\n' then 0
    else
      var rest := FirstNewline(content[1..]);
      assert content[..rest + 1] == [content[0]] + content[1..][..rest];
      1 + rest
  }

  /** The header names the digest of everything after the first newline. */
  predicate IsManaged(sha: Hash, content: string) {
    var k := FirstNewline(content);
    k < |content| && content[..k] == DROPIN_HEADER + sha(content[k + 1..])
  }

  predicate IsLegacy(p: Path, content: string) {
    p.dir != [] &&
    var last := p.dir[|p.dir| - 1];
    var unit := if |last| >= 2 && last[|last| - 2..] == ".d" then last[..|last| - 2] else last;
    unit in LEGACY_DROPINS && content == LEGACY_DROPINS[unit]
  }

  predicate ParentIsLink(files: FileMap, p: Path) {
    p.dir != [] &&
    var parent := Path(p.dir[..|p.dir| - 1], p.dir[|p.dir| - 1]);
    parent in files && files[parent].Symlink?
  }

  /** One drop-in path that owned_dropins looks at and does not refuse. */
  predicate Acceptable(sha: Hash, files: FileMap, p: Path) {
    && !ParentIsLink(files, p)
    && (p in files ==> files[p].Regular? && (IsManaged(sha, files[p].content) || IsLegacy(p, files[p].content)))
  }

  function Inspected(etc: seq<string>, files: FileMap, desired: map<Path, string>): set<Path> {
    (set p | p in files && IsDropinPath(etc, p)) + desired.Keys
  }

  /** owned_dropins: None stands for the refusal of the first path that is not recognised. */
  function OwnedDropins(sha: Hash, etc: seq<string>, files: FileMap,
                        desired: map<Path, string>): (owned: Option<set<Path>>)
  {
    if forall p | p in Inspected(etc, files, desired) :: Acceptable(sha, files, p)
    then Some(set p | p in Inspected(etc, files, desired) && p in files)
    else None
  }

  lemma {:induction false} ManagedIsRecognised(sha: Hash, body: string)
    requires OneLine(sha)
    ensures IsManaged(sha, Managed(sha, body))
  {
    var header := DROPIN_HEADER + sha(body);
    var content := Managed(sha, body);
    assert forall c | c in DROPIN_HEADER :: c != '\n';
    assert '\n' !in header;
    var k := FirstNewline(content);
    assert content[|header|] == '\n';
    assert content[..|header|] == header;
    assert forall i | 0 <= i < |header| :: content[i] == header[i] && content[i] in header;
    assert forall i | 0 <= i < k :: content[i] == content[..k][i] && content[i] in content[..k];
    assert k == |header|;
    assert content[k + 1..] == body;
  }

  /** A header line with the digest of the rest. */
  ghost predicate IsSigned(sha: Hash, content: string) {
    exists body :: content == DROPIN_HEADER + sha(body) + "\n" + body
  }

  /** Nothing else is recognised as managed. */
  lemma OnlySignedIsManaged(sha: Hash, content: string)
    requires OneLine(sha)
    ensures IsManaged(sha, content) <==> IsSigned(sha, content)
  {
    forall body | content == DROPIN_HEADER + sha(body) + "\n" + body
      ensures IsManaged(sha, content)
    {
      ManagedIsRecognised(sha, body);
    }
    var k := FirstNewline(content);
    if IsManaged(sha, content) {
      var body := content[k + 1..];
      assert content == content[..k] + [content[k]] + content[k + 1..];
      assert content == DROPIN_HEADER + sha(body) + "\n" + body;
    }
  }

  /** A drop-in of the tool whose body was edited: its header names another digest. */
  ghost predicate IsEdited(sha: Hash, content: string) {
    exists digest, body :: (
      content == DROPIN_HEADER + digest + "\n" + body && '\n' !in digest && digest != sha(body))
  }

  /** A text the original touch profile wrote for the unit of this directory. */
  ghost predicate IsOriginal(p: Path, content: string) {
    exists unit :: (
      && unit in LEGACY_DROPINS && content == LEGACY_DROPINS[unit]
      && p.dir != [] && p.dir[|p.dir| - 1] == unit + ".d")
  }

  /** Only three units ever had such a text. */
  lemma OriginalsAre(p: Path, content: string)
    ensures IsOriginal(p, content) ==> p.dir != [] && exists unit :: (
      unit in {"logicd.service", "httpd.service", "viald.service"} && p.dir[|p.dir| - 1] == unit + ".d"
      && content in ORIGINALS)
  {
  }

  const ORIGINALS: set<string> := {
    "[Unit]\nWants=\nWants=dev-hidg0.device\n\n[Service]\nEnvironment=\"LOGICD_MATRIX_ROWS=16\"\n"
      + "Environment=\"LOGICD_MATRIX_COLS=16\"\nEnvironment=\"LOGICD_OUTPUTS=auto\"\n",
    "[Unit]\nAfter=\nAfter=logicd.service\nWants=\nWants=logicd.service\n",
    "[Unit]\nAfter=\nAfter=hidloom-usb-gadget.service logicd.service\n"
  }

  lemma OriginalIsLegacy(etc: seq<string>, p: Path, content: string)
    requires IsDropinPath(etc, p)
    ensures IsLegacy(p, content) <==> IsOriginal(p, content)
  {
    hide LEGACY_DROPINS;
    var last := p.dir[|p.dir| - 1];
    var unit := last[..|last| - 2];
    assert last == unit + ".d";
    forall other: string | last == other + ".d"
      ensures other == unit
    {
      assert (other + ".d")[..|other|] == other;
    }
  }

  lemma EditedIsNotManaged(sha: Hash, content: string)
    requires IsEdited(sha, content)
    ensures !IsManaged(sha, content)
  {
    var digest, body :| content == DROPIN_HEADER + digest + "\n" + body && '\n' !in digest && digest != sha(body);
    HeaderIsOneLine();
    hide DROPIN_HEADER, FirstNewline;
    var header := DROPIN_HEADER + digest;
    FirstLineIs(header, body);
    assert header[|DROPIN_HEADER|..] == digest;
    assert (DROPIN_HEADER + sha(body))[|DROPIN_HEADER|..] == sha(body);
  }

  lemma HeaderIsOneLine()
    ensures '\n' !in DROPIN_HEADER
  {
  }

  lemma FirstLineIs(line: string, rest: string)
    requires '\n' !in line
    ensures var content, k := line + "\n" + rest, FirstNewline(line + "\n" + rest);
      k < |content| && content[..k] == line && content[k + 1..] == rest
  {
    var content := line + "\n" + rest;
    assert content[..|line|] == line && content[|line|] == '\n' && content[|line| + 1..] == rest;
    FirstNewlineIs(content, |line|);
  }

  lemma FirstNewlineIs(content: string, k: nat)
    requires k < |content| && content[k] == '\n' && '\n' !in content[..k]
    ensures FirstNewline(content) == k
  {
    var first := FirstNewline(content);
    assert forall i | 0 <= i < k :: content[i] in content[..k];
    assert forall i | 0 <= i < first :: content[i] in content[..first];
  }

  lemma ManagedStarts(sha: Hash, content: string)
    requires IsManaged(sha, content)
    ensures DROPIN_HEADER <= content
  {
    hide DROPIN_HEADER;
    assert DROPIN_HEADER <= content[..FirstNewline(content)] <= content;
  }

  lemma ForeignIsNotManaged(sha: Hash, content: string)
    requires !(DROPIN_HEADER <= content)
    ensures !IsManaged(sha, content)
  {
    if IsManaged(sha, content) {
      ManagedStarts(sha, content);
    }
  }

  /** A drop-in path the tool must not touch: its directory is a link, or there is something else
      than a file written with the digest of its own body or by the original profile. */
  ghost predicate IsUntouchable(sha: Hash, files: FileMap, p: Path) {
    || ParentIsLink(files, p)
    || (p in files && (files[p].Regular? ==>
          !IsOriginal(p, files[p].content) && !IsSigned(sha, files[p].content)))
  }

  /** Planning refuses if and only if one of the drop-ins there or to be written is untouchable. */
  lemma RefusedIfUntouchable(sha: Hash, etc: seq<string>, files: FileMap, desired: map<Path, string>)
    requires OneLine(sha) && forall p | p in desired :: IsDropinPath(etc, p)
    ensures OwnedDropins(sha, etc, files, desired) == None
      <==> exists p :: ((p in files && IsDropinPath(etc, p)) || p in desired) && IsUntouchable(sha, files, p)
  {
    hide IsDropinPath, IsManaged, IsLegacy, IsSigned, IsOriginal, ParentIsLink;
    forall p | (p in files && IsDropinPath(etc, p)) || p in desired
      ensures Acceptable(sha, files, p) <==> !IsUntouchable(sha, files, p)
    {
      if p in files && files[p].Regular? {
        OnlySignedIsManaged(sha, files[p].content);
        OriginalIsLegacy(etc, p, files[p].content);
      }
    }
  }

  /** So an edited drop-in is untouchable, and so is one without the tool's header. */
  lemma EditedIsUntouchable(sha: Hash, files: FileMap, p: Path)
    requires OneLine(sha) && IsRegular(files, p) && !IsOriginal(p, files[p].content)
    requires IsEdited(sha, files[p].content) || !(DROPIN_HEADER <= files[p].content)
    ensures IsUntouchable(sha, files, p)
  {
    hide IsManaged, IsSigned, IsOriginal, IsEdited;
    var content := files[p].content;
    if IsEdited(sha, content) { EditedIsNotManaged(sha, content); } else { ForeignIsNotManaged(sha, content); }
    OnlySignedIsManaged(sha, content);
  }

  /** The dict of desired contents in its own order, and the drop-ins found at planning. */
  datatype DropinPlan = DropinPlan(desired: map<Path, string>, order: seq<Path>, owned: seq<Path>) {
    predicate Valid() {
      && (forall i, j | 0 <= i < j < |order| :: order[i] != order[j])
      && (forall i, j | 0 <= i < j < |owned| :: owned[i] != owned[j])
      && (set p | p in order) == desired.Keys
      && (forall p | p in order + owned :: p.name == DROPIN_NAME)
    }
  }

  /** Drop-ins that already have the desired bytes and mode. */
  function Unchanged(files: FileMap, plan: DropinPlan): set<Path> {
    set p | p in plan.owned && p in plan.desired && p in files && files[p] == Regular(DEFAULT_MODE, plan.desired[p])
  }

  /** Outside new files, `after` is `before` without `removed` and with `written`. */
  ghost predicate Reshaped(before: FileMap, after: FileMap, removed: set<Path>, written: map<Path, string>) {
    && (forall p | p in removed || p in written :: p.name == DROPIN_NAME)
    && removed !! written.Keys && removed <= before.Keys
    && (forall q | q in before && q !in removed && q !in written :: q in after && after[q] == before[q])
    && (forall q | q in removed :: q !in after)
    && (forall q | q in written :: q in after && after[q] == Regular(DEFAULT_MODE, written[q]))
  }

  /** The new files are backups of `backed`, one for each, and written drop-ins. */
  ghost predicate BackedUp(before: FileMap, after: FileMap, backed: set<Path>, written: map<Path, string>) {
    && (forall q | q in after && q !in before && q !in written :: exists p ::
      p in backed && FreshCopy(before, after, q, p))
    && (forall p | p in backed :: exists q :: FreshCopy(before, after, q, p))
  }

  /** Since `before`, exactly this happened to the files: the drop-ins of `backed` got a fresh
      copy, those of `removed` went away, those of `written` got their desired content. */
  ghost predicate Reconciled(before: FileMap, after: FileMap, backed: set<Path>, removed: set<Path>,
                             written: map<Path, string>) {
    Reshaped(before, after, removed, written) && BackedUp(before, after, backed, written)
  }

  lemma CopyHasOtherName(q: Path, p: Path)
    requires IsBackupOf(q, p)
    ensures q.name !in {DROPIN_NAME, FLICK_NAME, MARKER_NAME}
  {
    if q.name in {DROPIN_NAME, FLICK_NAME, MARKER_NAME} { OwnNamesAreNoBackups(q); }
  }

  /** A change away from the copies keeps them. */
  lemma CopiesStay(before: FileMap, now: FileMap, after: FileMap, backed: set<Path>, p: Path)
    requires p.name == DROPIN_NAME && after - {p} == now - {p}
    ensures forall q, r | FreshCopy(before, now, q, r) :: FreshCopy(before, after, q, r)
  {
    SameElsewhere(now, after, p);
    forall q, r | FreshCopy(before, now, q, r)
      ensures FreshCopy(before, after, q, r)
    {
      CopyHasOtherName(q, r);
    }
  }

  lemma ReconcileBackup(before: FileMap, now: FileMap, after: FileMap, backed: set<Path>, removed: set<Path>,
                        written: map<Path, string>, p: Path, saved: Path)
    requires Reconciled(before, now, backed, removed, written)
    requires p in before && p in now && now[p] == before[p] && IsBackupOf(saved, p) && saved !in now
    requires after == now[saved := now[p]]
    ensures Reconciled(before, after, backed + {p}, removed, written)
  {
    hide IsBackupOf, BackedUp, Reshaped;
    CopyHasOtherName(saved, p);
    ShapeKept(before, now, removed, written, saved, now[p]);
    SavedCopy(before, now, after, backed, written, p, saved);
  }

  lemma ShapeKept(before: FileMap, now: FileMap, removed: set<Path>,
                  written: map<Path, string>, saved: Path, node: Node)
    requires Reshaped(before, now, removed, written) && saved !in now && saved.name != DROPIN_NAME
    ensures saved !in before && Reshaped(before, now[saved := node], removed, written)
  {
  }

  lemma SavedCopy(before: FileMap, now: FileMap, after: FileMap, backed: set<Path>,
                  written: map<Path, string>, p: Path, saved: Path)
    requires BackedUp(before, now, backed, written) && p in before && p in now
      && now[p] == before[p] && IsBackupOf(saved, p)
    requires saved !in now && saved !in before && after == now[saved := now[p]]
    ensures BackedUp(before, after, backed + {p}, written)
  {
    assert FreshCopy(before, after, saved, p);
    assert forall q, r | FreshCopy(before, now, q, r) :: FreshCopy(before, after, q, r);
    hide IsBackupOf;
  }

  lemma ReconcileRemove(before: FileMap, now: FileMap, after: FileMap, backed: set<Path>, removed: set<Path>,
                        written: map<Path, string>, p: Path)
    requires Reconciled(before, now, backed, removed, written)
    requires p in before && p.name == DROPIN_NAME && p !in written && after == now - {p}
    ensures Reconciled(before, after, backed, removed + {p}, written)
  {
    CopiesStay(before, now, after, backed, p);
  }

  lemma ReconcileWrite(before: FileMap, now: FileMap, after: FileMap, backed: set<Path>, removed: set<Path>,
                       written: map<Path, string>, p: Path, content: string)
    requires Reconciled(before, now, backed, removed, written)
    requires p.name == DROPIN_NAME && p !in removed && after == now[p := Regular(DEFAULT_MODE, content)]
    ensures Reconciled(before, after, backed, removed, written[p := content])
  {
    hide IsBackupOf, BackedUp, Reshaped;
    CopiesStay(before, now, after, backed, p);
    WrittenShape(before, now, removed, written, p, content);
    WrittenCopies(before, now, after, backed, written, p, content);
  }

  lemma WrittenShape(before: FileMap, now: FileMap, removed: set<Path>,
                     written: map<Path, string>, p: Path, content: string)
    requires Reshaped(before, now, removed, written) && p.name == DROPIN_NAME && p !in removed
    ensures Reshaped(before, now[p := Regular(DEFAULT_MODE, content)], removed, written[p := content])
  {
  }

  lemma WrittenCopies(before: FileMap, now: FileMap, after: FileMap, backed: set<Path>,
                      written: map<Path, string>, p: Path, content: string)
    requires BackedUp(before, now, backed, written) && after == now[p := Regular(DEFAULT_MODE, content)]
    requires forall q, r | FreshCopy(before, now, q, r) :: FreshCopy(before, after, q, r)
    ensures BackedUp(before, after, backed, written[p := content])
  {
    hide IsBackupOf;
  }

  /** The result of a completed write_dropins. */
  ghost predicate DropinsWritten(before: FileMap, after: FileMap, plan: DropinPlan, backup: bool) {
    var exact := Unchanged(before, plan);
    Reconciled(before, after,
      if backup then Without(plan.owned, exact) else {},
      Without(plan.owned, plan.desired.Keys + exact),
      plan.desired - exact)
  }

  lemma RetireStarts(promise: Promise, before: FileMap, now: FileMap, backed: set<Path>, removed: set<Path>, p: Path)
    requires promise.Holds(now) && Reconciled(before, now, backed, removed, map[]) && p in before && p !in removed
    requires p in promise.base.before
    ensures p in now && now[p] == before[p] && now[p].Regular? && promise.base.oldBackups <= now.Keys
      && promise.paths <= promise.base.before.Keys
    ensures p in promise.paths ==> Recoverable(promise.base, now, p)
  {
    hide Recoverable, BackedUp;
  }

  lemma CoveredStays(base: Baseline, before: FileMap, after: FileMap, p: Path)
    requires p in base.before && VerifiedBackups(base, before, p) <= VerifiedBackups(base, after, p)
    ensures Covered(base, before, p) ==> Covered(base, after, p)
  {
    hide VerifiedBackups;
  }

  /** One turn of the first loop: back up, then remove if no longer desired. */
  method RetireDropin(ghost promise: Promise, ghost before: FileMap, ghost backed: set<Path>, ghost removed: set<Path>,
                      disk: Disk, desired: map<Path, string>, p: Path, backup: bool, timestamp: string)
    returns (ok: bool)
    requires promise.Holds(disk.files) && (promise.paths != {} ==> backup)
    requires p.name == DROPIN_NAME && p in promise.base.before
    requires Reconciled(before, disk.files, backed, removed, map[]) && p in before && p !in removed
    modifies disk`files, disk`faults
    ensures old(disk.faults) <= disk.faults
    ensures promise.Holds(disk.files)
    ensures ok ==> Reconciled(before, disk.files, if backup then backed + {p} else backed,
                              if p in desired then removed else removed + {p}, map[])
    ensures ok && p in promise.paths ==> Covered(promise.base, disk.files, p)
    ensures ok <==> disk.faults == old(disk.faults)
    ensures forall q | q in promise.base.before ::
      VerifiedBackups(promise.base, old(disk.files), q) <= VerifiedBackups(promise.base, disk.files, q)
    ensures MarkersKept(old(disk.files), disk.files)
  {
    hide MarkersKept, Reconciled, Safe, VerifiedBackups, Covered, Recoverable, IsBackupOf;
    OwnNamesAreNoBackups(p);
    ghost var base, paths := promise.base, promise.paths;
    RetireStarts(promise, before, disk.files, backed, removed, p);
    MarkersKeptAtFirst(disk.files);
    ok := disk.Step();
    if !ok { return; }
    ghost var backed' := backed;
    if backup {
      var saved, _ := disk.FreshBackup(p, timestamp);
      BackupComesLater(saved, p);
      ok := disk.CopyToFresh(p, saved);
      assert ok ==> disk.files - {saved} == old(disk.files);
      DisturbingIsSafe(base, paths, old(disk.files), disk.files, saved);
      HelpersAreNoMarkers(saved, p);
      MarkersKeptBeside(old(disk.files), disk.files, saved);
      if !ok { return; }
      ReconcileBackup(before, old(disk.files), disk.files, backed, removed, map[], p, saved);
      backed' := backed + {p};
      if p in paths {
        BackupCovers(base, old(disk.files), disk.files, p, saved);
      }
    }
    ghost var copied := disk.files;
    if p !in desired {
      ok := disk.Unlink(p);
      ChangeOutsideBackups(base, paths, copied, disk.files, p);
      if p in paths { CoveredStays(base, copied, disk.files, p); }
      MarkersKeptBeside(copied, disk.files, p);
      MarkersKeptTwice(old(disk.files), copied, disk.files);
      if ok {
        ReconcileRemove(before, copied, disk.files, backed', removed, map[], p);
      }
    }
  }

  /** Every promised path that write_dropins may still write is covered. */
  ghost predicate AllCovered(promise: Promise, files: FileMap, pending: set<Path>) {
    forall p | p in pending && p in promise.paths :: p in promise.base.before && Covered(promise.base, files, p)
  }

  lemma CoverageGrows(promise: Promise, before: FileMap, after: FileMap, pending: set<Path>)
    requires AllCovered(promise, before, pending)
    requires forall q | q in promise.base.before ::
      VerifiedBackups(promise.base, before, q) <= VerifiedBackups(promise.base, after, q)
    ensures AllCovered(promise, after, pending)
  {
  }

  function Without(paths: seq<Path>, dropped: set<Path>): set<Path> {
    set p | p in paths && p !in dropped
  }

  lemma WithoutNext(paths: seq<Path>, dropped: set<Path>, i: nat)
    requires i < |paths|
    ensures Without(paths[..0], dropped) == {} && Without(paths[..|paths|], dropped) == Without(paths, dropped)
    ensures Without(paths[..i + 1], dropped) ==
      if paths[i] in dropped then Without(paths[..i], dropped) else Without(paths[..i], dropped) + {paths[i]}
    ensures (forall k | 0 <= k < i :: paths[k] != paths[i]) ==> paths[i] !in Without(paths[..i], dropped)
  {
  }

  lemma NothingRetired(promise: Promise, files: FileMap, owned: seq<Path>, exact: set<Path>, gone: set<Path>)
    ensures Reconciled(files, files, {}, {}, map[]) && AllCovered(promise, files, {}) && MarkersKept(files, files)
    ensures Without(owned[..0], exact) == Without(owned[..0], gone) == {}
  {
  }

  /** The first loop of write_dropins. */
  method RetireDropins(ghost promise: Promise, disk: Disk, plan: DropinPlan, exact: set<Path>,
                       backup: bool, timestamp: string)
    returns (ok: bool)
    requires plan.Valid() && promise.Holds(disk.files) && (promise.paths != {} ==> backup)
    requires forall p | p in plan.owned :: p in promise.base.before && p in disk.files
    modifies disk`files, disk`faults
    ensures old(disk.faults) <= disk.faults
    ensures promise.Holds(disk.files)
    ensures ok ==> Reconciled(old(disk.files), disk.files, if backup then Without(plan.owned, exact) else {},
                              Without(plan.owned, plan.desired.Keys + exact), map[])
    ensures ok ==> AllCovered(promise, disk.files, Without(plan.owned, exact))
    ensures ok <==> disk.faults == old(disk.faults)
    ensures MarkersKept(old(disk.files), disk.files)
  {
    hide Reconciled, Safe, VerifiedBackups, Covered, Without, MarkersKept;
    ghost var before := disk.files;
    ghost var gone := plan.desired.Keys + exact;
    NothingRetired(promise, before, plan.owned, exact, gone);
    for i := 0 to |plan.owned|
      invariant promise.Holds(disk.files) && MarkersKept(before, disk.files) && disk.faults == old(disk.faults)
      invariant Reconciled(before, disk.files, if backup then Without(plan.owned[..i], exact) else {},
                           Without(plan.owned[..i], gone), map[])
      invariant AllCovered(promise, disk.files, Without(plan.owned[..i], exact))
    {
      var p := plan.owned[i];
      WithoutNext(plan.owned, exact, i);
      WithoutNext(plan.owned, gone, i);
      if p !in exact {
        ghost var now, handled := disk.files, Without(plan.owned[..i], exact);
        ok := RetireDropin(promise, before, if backup then handled else {}, Without(plan.owned[..i], gone),
                           disk, plan.desired, p, backup, timestamp);
        MarkersKeptTwice(before, now, disk.files);
        if !ok { return; }
        CoverageGrows(promise, now, disk.files, handled);
      }
    }
    assert plan.owned[..|plan.owned|] == plan.owned;
    ok := true;
  }

  /** The second loop: write every desired drop-in that is not already exact. */
  method WriteDesired(ghost promise: Promise, ghost before: FileMap, ghost backed: set<Path>, ghost removed: set<Path>,
                      disk: Disk, plan: DropinPlan, exact: set<Path>)
    returns (ok: bool)
    requires plan.Valid() && promise.Holds(disk.files) && exact <= plan.desired.Keys
    requires removed !! plan.desired.Keys
    requires forall p | p in plan.desired :: p in promise.base.before
    requires Reconciled(before, disk.files, backed, removed, map[])
    requires AllCovered(promise, disk.files, plan.desired.Keys - exact)
    modifies disk`files, disk`faults
    ensures old(disk.faults) <= disk.faults
    ensures promise.Holds(disk.files)
    ensures ok ==> Reconciled(before, disk.files, backed, removed, plan.desired - exact)
    ensures ok <==> disk.faults == old(disk.faults)
    ensures MarkersKept(old(disk.files), disk.files)
  {
    hide Reconciled, Safe, VerifiedBackups, Covered, MarkersKept;
    ghost var arrival := disk.files;
    NothingRetired(promise, arrival, [], {}, {});
    ghost var written: map<Path, string> := map[];
    for i := 0 to |plan.order|
      invariant promise.Holds(disk.files) && MarkersKept(arrival, disk.files) && disk.faults == old(disk.faults)
      invariant forall p :: p in written <==> p in plan.order[..i] && p !in exact
      invariant forall p | p in written :: p in plan.desired && written[p] == plan.desired[p]
      invariant Reconciled(before, disk.files, backed, removed, written)
      invariant AllCovered(promise, disk.files, plan.desired.Keys - exact)
    {
      var p := plan.order[i];
      assert p in plan.desired.Keys;
      assert plan.order[..i + 1] == plan.order[..i] + [p];
      if p !in exact {
        ghost var now := disk.files;
        var replaced;
        ok, replaced := AtomicContent(disk, p, plan.desired[p], DEFAULT_MODE);
        OwnNamesAreNoBackups(p);
        if replaced {
          assert disk.files - {p} == now - {p};
          MarkersKeptBeside(now, disk.files, p);
          ChangeOutsideBackups(promise.base, promise.paths, now, disk.files, p);
          CoverageGrows(promise, now, disk.files, plan.desired.Keys - exact);
          ReconcileWrite(before, now, disk.files, backed, removed, written, p, plan.desired[p]);
          written := written[p := plan.desired[p]];
        } else {
          ghost var t :| IsTemporaryOf(t, p) && t != p && Disturbed(now, disk.files, t);
          DisturbingIsSafe(promise.base, promise.paths, now, disk.files, t);
          HelpersAreNoMarkers(t, p);
          MarkersKeptBeside(now, disk.files, t);
        }
        MarkersKeptTwice(arrival, now, disk.files);
        if !ok { return; }
      }
    }
    assert plan.order[..|plan.order|] == plan.order;
    assert written == plan.desired - exact;
    ok := true;
  }

  method WriteDropins(ghost promise: Promise, disk: Disk, plan: DropinPlan, dryRun: bool,
                      backup: bool, timestamp: string)
    returns (ok: bool)
    requires plan.Valid() && promise.Holds(disk.files) && (promise.paths != {} ==> backup)
    requires forall p | p in plan.owned :: p in disk.files
    requires forall p | p in plan.order + plan.owned :: p in promise.base.before
    requires forall p | p in plan.desired && p !in plan.owned :: promise.base.before[p] == Absent
    modifies disk`files, disk`faults
    ensures old(disk.faults) <= disk.faults
    ensures promise.Holds(disk.files)
    ensures dryRun ==> disk.files == old(disk.files)
    ensures ok && !dryRun ==> DropinsWritten(old(disk.files), disk.files, plan, backup)
    ensures ok <==> disk.faults == old(disk.faults)
    ensures MarkersKept(old(disk.files), disk.files)
  {
    var exact := Unchanged(disk.files, plan);
    if dryRun { return true; }
    ok := RetireDropins(promise, disk, plan, exact, backup, timestamp);
    if !ok { return; }
    ghost var removed := Without(plan.owned, plan.desired.Keys + exact);
    ghost var backed := if backup then Without(plan.owned, exact) else {};
    assert AllCovered(promise, disk.files, plan.desired.Keys - exact) by {
      forall p | p in plan.desired.Keys - exact && p in promise.paths
        ensures p in promise.base.before && Covered(promise.base, disk.files, p)
      {
        assert p in plan.order;
        if p in plan.owned {
          assert p in Without(plan.owned, exact);
        }
      }
    }
    ok := WriteDesired(promise, old(disk.files), backed, removed, disk, plan, exact);
  }

  // ----- what reconciliation leaves behind ----------------------------------------------------

  /** The drop-ins on disk are exactly the desired ones, with the desired bytes and mode 0644. */
  ghost predicate DropinsExact(etc: seq<string>, files: FileMap, desired: map<Path, string>) {
    && (forall p | p in files && IsDropinPath(etc, p) :: p in desired)
    && (forall p | p in desired :: p in files && files[p] == Regular(DEFAULT_MODE, desired[p]))
  }

  lemma ParentNotDropin(etc: seq<string>, p: Path)
    requires IsDropinPath(etc, p)
    ensures Path(p.dir[..|p.dir| - 1], p.dir[|p.dir| - 1]).name != DROPIN_NAME
  {
  }

  /** The plan was made by owned_dropins on these files. */
  ghost predicate PlannedOn(sha: Hash, etc: seq<string>, files: FileMap, plan: DropinPlan) {
    && plan.Valid() && OwnedDropins(sha, etc, files, plan.desired) == Some(set p | p in plan.owned)
  }

  lemma PlannedPaths(sha: Hash, etc: seq<string>, files: FileMap, plan: DropinPlan, p: Path)
    requires PlannedOn(sha, etc, files, plan)
    ensures p in plan.owned <==> p in files && (IsDropinPath(etc, p) || p in plan.desired)
    ensures p in plan.owned || p in plan.desired ==> Acceptable(sha, files, p)
    ensures p in plan.owned ==> IsRegular(files, p)
  {
    var owned, found := set q | q in plan.owned, set q | q in Inspected(etc, files, plan.desired) && q in files;
    assert owned == found;
    assert p in plan.owned <==> p in owned;
    assert p in found <==> p in Inspected(etc, files, plan.desired) && p in files;
  }

  /** The plan knows every drop-in on the disk. */
  ghost predicate OwnsAll(etc: seq<string>, files: FileMap, plan: DropinPlan) {
    forall p :: p in plan.owned <==> p in files && (IsDropinPath(etc, p) || p in plan.desired)
  }

  /** After write_dropins succeeds the drop-ins are exact. */
  lemma DropinsBecomeExact(etc: seq<string>, before: FileMap, after: FileMap, plan: DropinPlan, backup: bool)
    requires OwnsAll(etc, before, plan) && DropinsWritten(before, after, plan, backup)
    ensures DropinsExact(etc, after, plan.desired)
  {
    var exact := Unchanged(before, plan);
    forall p | p in before && IsDropinPath(etc, p) && p !in plan.desired
      ensures p !in after
    {
      assert p in Without(plan.owned, plan.desired.Keys + exact);
    }
    forall p, r | FreshCopy(before, after, p, r)
      ensures p.name != DROPIN_NAME
    {
      CopyHasOtherName(p, r);
    }
    forall p | p in plan.desired
      ensures p in after && after[p] == Regular(DEFAULT_MODE, plan.desired[p])
    {
      assert p in exact || p in plan.desired - exact;
    }
  }

  lemma NewFilesAreRegular(sha: Hash, etc: seq<string>, before: FileMap, after: FileMap,
                           plan: DropinPlan, backup: bool, q: Path)
    requires PlannedOn(sha, etc, before, plan) && DropinsWritten(before, after, plan, backup)
    requires q in after && q !in before
    ensures after[q].Regular?
  {
    var written := plan.desired - Unchanged(before, plan);
    var backed := if backup then Without(plan.owned, Unchanged(before, plan)) else {};
    assert BackedUp(before, after, backed, written);
    if q in written {
      assert after[q] == Regular(DEFAULT_MODE, written[q]);
    } else {
      hide PlannedOn, DropinsWritten, Unchanged, IsBackupOf;
      var r :| r in backed && FreshCopy(before, after, q, r);
      PlannedPaths(sha, etc, before, plan, r);
    }
  }

  lemma ParentsStayPlain(sha: Hash, etc: seq<string>, before: FileMap, after: FileMap,
                         plan: DropinPlan, backup: bool, p: Path)
    requires PlannedOn(sha, etc, before, plan) && DropinsWritten(before, after, plan, backup)
    requires IsDropinPath(etc, p) && !ParentIsLink(before, p)
    ensures !ParentIsLink(after, p)
  {
    var parent := Path(p.dir[..|p.dir| - 1], p.dir[|p.dir| - 1]);
    ParentNotDropin(etc, p);
    hide OwnedDropins, IsDropinPath, Unchanged, BackedUp, Without;
    if parent in after && parent !in before {
      NewFilesAreRegular(sha, etc, before, after, plan, backup, parent);
    }
  }

  lemma ExactIsOwned(sha: Hash, etc: seq<string>, files: FileMap, desired: map<Path, string>)
    requires DropinsExact(etc, files, desired)
    requires forall p | p in desired :: Acceptable(sha, files, p)
    ensures OwnedDropins(sha, etc, files, desired) == Some(desired.Keys)
  {
    hide Acceptable, IsDropinPath;
    assert Inspected(etc, files, desired) == desired.Keys;
    assert (set p | p in Inspected(etc, files, desired) && p in files) == desired.Keys;
  }

  /** After write_dropins succeeds the drop-ins are exact, and owned_dropins recognises each. */
  lemma DropinsSettle(sha: Hash, etc: seq<string>, dropins: map<string, string>, before: FileMap, after: FileMap,
                      plan: DropinPlan, backup: bool)
    requires OneLine(sha) && plan.desired == PlannedDropins(sha, etc, dropins)
    requires PlannedOn(sha, etc, before, plan) && DropinsWritten(before, after, plan, backup)
    ensures DropinsExact(etc, after, plan.desired)
    ensures OwnedDropins(sha, etc, after, plan.desired) == Some(plan.desired.Keys)
  {
    forall p {
      PlannedPaths(sha, etc, before, plan, p);
    }
    DropinsBecomeExact(etc, before, after, plan, backup);
    forall p | p in plan.desired
      ensures Acceptable(sha, after, p)
    {
      assert p in after && after[p] == Regular(DEFAULT_MODE, plan.desired[p]);
      hide DropinsWritten, PlannedOn, DropinsExact, IsManaged, Managed, ParentIsLink, Inspected;
      PlannedPaths(sha, etc, before, plan, p);
      ParentsStayPlain(sha, etc, before, after, plan, backup, p);
      var body :| plan.desired[p] == Managed(sha, body);
      ManagedIsRecognised(sha, body);
    }
    ExactIsOwned(sha, etc, after, plan.desired);
  }

  /** A second run, planned on exact drop-ins, leaves the files as they are: it writes nothing,
      removes nothing and makes no backup. */
  lemma SecondRunChangesNothing(etc: seq<string>, files: FileMap, again: FileMap, plan: DropinPlan, backup: bool)
    requires plan.Valid() && DropinsExact(etc, files, plan.desired)
    requires (set p | p in plan.owned) == plan.desired.Keys
    requires DropinsWritten(files, again, plan, backup)
    ensures again == files
  {
    var exact := Unchanged(files, plan);
    assert exact == plan.desired.Keys by {
      assert forall p | p in plan.desired :: p in set q | q in plan.owned;
    }
    assert Without(plan.owned, exact) == Without(plan.owned, plan.desired.Keys + exact) == {} by {
      assert forall p | p in plan.owned :: p in set q | q in plan.owned;
    }
    assert plan.desired - exact == map[];
    assert forall q | q in again :: q in files;
  }
}
