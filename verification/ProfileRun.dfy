/** apply_profile of script/apply_device_profile.py from validation to the recovery report. */
module ProfileRun {
  import opened Chars
  import opened Ordering
  import opened Options
  import opened Files
  import opened ProfileRecovery
  import opened ProfileApply
  import opened Services

  /** File sections in their own order; drop-in bodies as rendered, "" where nothing is; the
      service lists. */
  datatype Profile = Profile(id: string, runtimeFiles: seq<(string, Path)>, configFiles: seq<(string, Path)>,
                             dropins: map<string, string>, services: Policy) {
    function Entries(): seq<(string, Path)> { runtimeFiles + configFiles }
  }

  datatype Outcome = Refused | Applied | Failed(commands: seq<Command>, attempts: seq<Attempt>)

  // ----- validation -------------------------------------------------------------------------

  predicate NameChar(c: char) {
    'A' <= c <= 'Z' || 'a' <= c <= 'z' || '0' <= c <= '9' || c in "_.-"
  }

  predicate DestinationName(name: string) {
    name != "" && (forall c | c in name :: NameChar(c)) && name !in {".", "..", MARKER_NAME}
  }

  const UNIT_SUFFIXES: seq<string> := [".service", ".timer", ".socket", ".target"]

  predicate UnitName(unit: string) {
    exists k | 0 <= k < |UNIT_SUFFIXES| :: var suffix := UNIT_SUFFIXES[k];
      && |suffix| < |unit| && unit[|unit| - |suffix|..] == suffix
      && forall c | c in unit[..|unit| - |suffix|] :: NameChar(c) || c in "@+"
  }

  predicate ProfileId(id: string) {
    id != "" && forall c | c in id :: 'A' <= c <= 'Z' || 'a' <= c <= 'z' || '0' <= c <= '9' || c in ".+-"
  }

  /** Directories are no nodes of the file map, so a node with the name of one is in its way. */
  predicate DirectoryIsFree(files: FileMap, dir: seq<string>) {
    dir == [] || Path(dir[..|dir| - 1], dir[|dir| - 1]) !in files
  }

  predicate IsAbsolute(path: string) { path != "" && path[0] == '/' }

  predicate PlainOrAbsent(files: FileMap, p: Path) {
    p in files ==> files[p].Regular?
  }

  predicate DistinctNames(entries: seq<(string, Path)>) {
    forall i, j | 0 <= i < j < |entries| :: entries[i].0 != entries[j].0
  }

  /** validate_profile: what must hold of the profile and the disk before anything is changed. */
  predicate Accepts(sha: Hash, etc: seq<string>, runtimeDir: seq<string>, profile: Profile, files: FileMap) {
    && ProfileId(profile.id) && DistinctNames(profile.Entries())
    && (forall e | e in profile.Entries() ::
          DestinationName(e.0) && IsRegular(files, e.1) && PlainOrAbsent(files, Path(runtimeDir, e.0)))
    && DirectoryIsFree(files, runtimeDir)
    && PlainOrAbsent(files, Path(runtimeDir, FLICK_NAME))
    && PlainOrAbsent(files, Path(runtimeDir, MARKER_NAME))
    && (forall unit | unit in profile.services.enable + profile.services.disable + profile.services.mask ::
          UnitName(unit))
    && (forall unit | unit in profile.services.enable :: unit !in profile.services.disable + profile.services.mask)
    && (forall path | path in profile.services.readySockets :: IsAbsolute(path))
    && (forall unit <- profile.dropins :: UnitName(unit) && profile.dropins[unit] != "")
    && OwnedDropins(sha, etc, files, PlannedDropins(sha, etc, profile.dropins)).Some?
  }

  ghost predicate MadeOf(s: string, characters: set<char>) {
    forall c | c in s :: c in characters
  }

  /** A profile or a file name that the tool does not take. */
  ghost predicate IsBadName(profile: Profile) {
    || profile.id == "" || !MadeOf(profile.id, ALPHANUMERIC + {'.', '+', '-'})
    || exists e :: (
      && e in profile.Entries()
      && (e.0 in {"", ".", "..", "device_profile.json"} || !MadeOf(e.0, ALPHANUMERIC + {'_', '.', '-'})))
  }

  /** A file that cannot be copied, or a place that is taken. */
  ghost predicate IsBadFile(runtimeDir: seq<string>, profile: Profile, files: FileMap) {
    || (exists i, j :: 0 <= i < j < |profile.Entries()| && profile.Entries()[i].0 == profile.Entries()[j].0)
    || (exists e :: e in profile.Entries() && !IsRegular(files, e.1))
    || (exists p :: (
          && p in files && !files[p].Regular? && p.dir == runtimeDir
          && (p.name in {"flick.json", "device_profile.json"} || exists e :: e in profile.Entries() && e.0 == p.name)))
    || (exists p :: p in files && p.Parts() == runtimeDir)
  }

  ghost predicate IsUnit(name: string) {
    exists stem: string, suffix: string :: (
      && name == stem + suffix && suffix in {".service", ".timer", ".socket", ".target"}
      && stem != "" && MadeOf(stem, ALPHANUMERIC + {'_', '.', '-', '@', '+'}))
  }

  /** A service list that contradicts itself, or a drop-in without a body. */
  ghost predicate IsBadService(profile: Profile) {
    var services := profile.services;
    || (exists unit :: unit in services.enable + services.disable + services.mask && !IsUnit(unit))
    || (exists unit :: unit in services.enable && (unit in services.disable || unit in services.mask))
    || (exists path :: path in services.readySockets && !("/" <= path))
    || (exists unit :: unit in profile.dropins && (!IsUnit(unit) || profile.dropins[unit] == ""))
  }

  ghost predicate IsBadDropin(sha: Hash, etc: seq<string>, profile: Profile, files: FileMap) {
    exists p :: (
      && ((p in files && IsDropinPath(etc, p)) || exists unit :: unit in profile.dropins && p == DropinPath(etc, unit))
      && IsUntouchable(sha, files, p))
  }

  lemma CharactersAre()
    ensures forall c :: NameChar(c) <==> c in ALPHANUMERIC + {'_', '.', '-'}
    ensures forall c :: NameChar(c) || c in "@+" <==> c in ALPHANUMERIC + {'_', '.', '-', '@', '+'}
    ensures forall id :: ProfileId(id) <==> id != "" && MadeOf(id, ALPHANUMERIC + {'.', '+', '-'})
  {
    hide ALPHANUMERIC;
    forall c { AlphanumericIs(c); }
  }

  lemma UnitsAre(name: string)
    ensures UnitName(name) <==> IsUnit(name)
  {
    hide ALPHANUMERIC, NameChar, MadeOf;
    if UnitName(name) { UnitIsMade(name); }
    if IsUnit(name) {
      var stem: string, suffix: string :| name == stem + suffix
        && suffix in {".service", ".timer", ".socket", ".target"}
        && stem != "" && MadeOf(stem, ALPHANUMERIC + {'_', '.', '-', '@', '+'});
      MadeIsUnit(name, stem, suffix);
    }
  }

  lemma UnitIsMade(name: string)
    requires UnitName(name)
    ensures IsUnit(name)
  {
    hide ALPHANUMERIC, NameChar;
    CharactersAre();
    var k :| 0 <= k < |UNIT_SUFFIXES| && var suffix := UNIT_SUFFIXES[k];
      && |suffix| < |name| && name[|name| - |suffix|..] == suffix
      && forall c | c in name[..|name| - |suffix|] :: NameChar(c) || c in "@+";
    var suffix := UNIT_SUFFIXES[k];
    var stem := name[..|name| - |suffix|];
    assert name == stem + suffix;
  }

  lemma MadeIsUnit(name: string, stem: string, suffix: string)
    requires name == stem + suffix && suffix in {".service", ".timer", ".socket", ".target"}
    requires stem != "" && MadeOf(stem, ALPHANUMERIC + {'_', '.', '-', '@', '+'})
    ensures UnitName(name)
  {
    hide ALPHANUMERIC, NameChar;
    CharactersAre();
    assert name[|name| - |suffix|..] == suffix && name[..|name| - |suffix|] == stem;
    var k := if suffix == ".service" then 0 else if suffix == ".timer" then 1 else if suffix == ".socket" then 2 else 3;
    assert UNIT_SUFFIXES[k] == suffix;
  }

  lemma NamesAre(profile: Profile)
    ensures IsBadName(profile)
      <==> !(ProfileId(profile.id) && forall e | e in profile.Entries() :: DestinationName(e.0))
  {
    hide ALPHANUMERIC, NameChar, ProfileId;
    CharactersAre();
    forall e | e in profile.Entries()
      ensures DestinationName(e.0)
        <==> e.0 !in {"", ".", "..", "device_profile.json"} && MadeOf(e.0, ALPHANUMERIC + {'_', '.', '-'})
    {
      DestinationsAre(e.0);
    }
    hide DestinationName, MadeOf;
  }

  lemma DestinationsAre(name: string)
    ensures DestinationName(name)
      <==> name !in {"", ".", "..", "device_profile.json"} && MadeOf(name, ALPHANUMERIC + {'_', '.', '-'})
  {
    hide ALPHANUMERIC, NameChar;
    CharactersAre();
  }

  lemma FilesAre(runtimeDir: seq<string>, profile: Profile, files: FileMap)
    ensures !IsBadFile(runtimeDir, profile, files) <==> (
      && DistinctNames(profile.Entries())
      && (forall e | e in profile.Entries() :: IsRegular(files, e.1) && PlainOrAbsent(files, Path(runtimeDir, e.0)))
      && DirectoryIsFree(files, runtimeDir)
      && PlainOrAbsent(files, Path(runtimeDir, FLICK_NAME)) && PlainOrAbsent(files, Path(runtimeDir, MARKER_NAME)))
  {
  }

  lemma ServicesAre(profile: Profile)
    ensures !IsBadService(profile) <==> (
      && (forall unit | unit in profile.services.enable + profile.services.disable + profile.services.mask ::
            UnitName(unit))
      && (forall unit | unit in profile.services.enable :: unit !in profile.services.disable + profile.services.mask)
      && (forall path | path in profile.services.readySockets :: IsAbsolute(path))
      && (forall unit <- profile.dropins :: UnitName(unit) && profile.dropins[unit] != ""))
  {
    hide UnitName, IsUnit;
    forall name: string { UnitsAre(name); }
  }

  lemma DropinsAre(sha: Hash, etc: seq<string>, profile: Profile, files: FileMap)
    requires OneLine(sha)
    ensures !IsBadDropin(sha, etc, profile, files)
      <==> OwnedDropins(sha, etc, files, PlannedDropins(sha, etc, profile.dropins)).Some?
  {
    hide OwnedDropins, IsUntouchable, IsDropinPath;
    RefusedIfUntouchable(sha, etc, files, PlannedDropins(sha, etc, profile.dropins));
  }

  /** What validation refuses, reason by reason. */
  lemma RefusalReasons(sha: Hash, etc: seq<string>, runtimeDir: seq<string>, profile: Profile, files: FileMap)
    requires OneLine(sha)
    ensures !Accepts(sha, etc, runtimeDir, profile, files) <==> (
      || IsBadName(profile) || IsBadFile(runtimeDir, profile, files) || IsBadService(profile)
      || IsBadDropin(sha, etc, profile, files))
  {
    NamesAre(profile);
    FilesAre(runtimeDir, profile, files);
    ServicesAre(profile);
    DropinsAre(sha, etc, profile, files);
    hide IsBadName, IsBadFile, IsBadService, IsBadDropin, ProfileId, DestinationName, DistinctNames, PlainOrAbsent,
      DirectoryIsFree, UnitName, IsAbsolute, OwnedDropins, PlannedDropins;
  }

  // ----- the baseline -----------------------------------------------------------------------

  function Tracked(runtimeDir: seq<string>, profile: Profile, plan: DropinPlan): set<Path> {
    (set e | e in profile.Entries() :: Path(runtimeDir, e.0))
    + {Path(runtimeDir, FLICK_NAME), Path(runtimeDir, MARKER_NAME)}
    + plan.desired.Keys + set p | p in plan.owned
  }

  function TakeBaseline(files: FileMap, tracked: set<Path>): (base: Baseline)
    ensures base.Of(files) && base.before.Keys == tracked
  {
    Baseline(map p | p in tracked :: FingerprintOf(files, p),
             set s | s in files && exists p :: p in tracked && IsBackupOf(s, p))
  }

  lemma BaselineIsSafe(files: FileMap, base: Baseline)
    requires base.Of(files) && forall p | p in base.before :: PlainOrAbsent(files, p)
    ensures Safe(base, files, base.before.Keys) && Safe(base, files, {})
  {
  }

  // ----- file sections ----------------------------------------------------------------------

  /** Only the named files of `dir` may have changed, and new files are all in `dir`. */
  ghost predicate TouchedOnly(before: FileMap, after: FileMap, dir: seq<string>, names: set<string>) {
    && (forall p | p in before && !(p.dir == dir && p.name in names) :: p in after && after[p] == before[p])
    && (forall p | p in after && p !in before ::
          p.dir == dir && (p.name in names || exists name :: name in names && IsBackupOf(p, Path(dir, name))))
  }

  lemma ChangedTouchesOnly(before: FileMap, after: FileMap, p: Path, node: Option<Node>, backup: bool)
    requires Changed(before, after, p, node, backup)
    ensures TouchedOnly(before, after, p.dir, {p.name})
    ensures node.Some? ==> p in after && after[p] == node.value
  {
  }

  function Names(entries: seq<(string, Path)>): set<string> {
    set e | e in entries :: e.0
  }

  /** Every entry is installed: mode 0644, with the bytes its source had in `before`. */
  ghost predicate Installed(before: FileMap, after: FileMap, dir: seq<string>, entries: seq<(string, Path)>) {
    forall e | e in entries :: IsRegular(before, e.1) && Path(dir, e.0) in after
      && after[Path(dir, e.0)] == Regular(DEFAULT_MODE, before[e.1].content)
  }

  /** No source lies in the runtime directory, so no source is overwritten on the way. */
  predicate SourcesApart(dir: seq<string>, entries: seq<(string, Path)>) {
    forall e | e in entries :: e.1.dir != dir
  }

  /** Every source is a regular file, but perhaps flick.json of the runtime directory. */
  ghost predicate SourcesThere(files: FileMap, dir: seq<string>, entries: seq<(string, Path)>) {
    forall e | e in entries && e.1 != Path(dir, FLICK_NAME) :: IsRegular(files, e.1)
  }

  /** Where flick.json of the runtime directory is a source, it is there or copied earlier. */
  predicate InTime(files: FileMap, dir: seq<string>, entries: seq<(string, Path)>) {
    IsRegular(files, Path(dir, FLICK_NAME)) || ComesFirst(dir, entries)
  }

  /** No entry copies from flick.json of `dir` before one has copied to it. */
  predicate ComesFirst(dir: seq<string>, entries: seq<(string, Path)>) {
    forall i | 0 <= i < |entries| && entries[i].1 == Path(dir, FLICK_NAME) :: FLICK_NAME in Names(entries[..i])
  }

  /** The first `i` copies have found their sources, and left those of the others. */
  ghost predicate FoundSoFar(before: FileMap, now: FileMap, dir: seq<string>, entries: seq<(string, Path)>, i: nat)
    requires i <= |entries|
  {
    && SourcesThere(now, dir, entries) && InTime(before, dir, entries[..i])
    && (IsRegular(now, Path(dir, FLICK_NAME)) <==>
      IsRegular(before, Path(dir, FLICK_NAME)) || FLICK_NAME in Names(entries[..i]))
  }

  /** Regular files stay regular. */
  ghost predicate SourcesKept(before: FileMap, after: FileMap, dir: seq<string>) {
    forall p | IsRegular(before, p) :: IsRegular(after, p)
  }

  lemma FoundNext(before: FileMap, now: FileMap, after: FileMap, dir: seq<string>, entries: seq<(string, Path)>,
                  i: nat, backup: bool)
    requires i < |entries| && FoundSoFar(before, now, dir, entries, i) && IsRegular(now, entries[i].1)
    requires Changed(now, after, Path(dir, entries[i].0),
      Some(Regular(DEFAULT_MODE, now[entries[i].1].content)), backup)
    ensures FoundSoFar(before, after, dir, entries, i + 1)
  {
    OwnNamesAreNoBackups(Path(dir, FLICK_NAME));
    assert entries[..i + 1] == entries[..i] + [entries[i]];
  }

  lemma NotFound(before: FileMap, now: FileMap, dir: seq<string>, entries: seq<(string, Path)>, i: nat)
    requires i < |entries| && CopiedSoFar(before, now, dir, entries, i)
    ensures SourcesThere(before, dir, entries) && !IsRegular(now, entries[i].1) ==> !InTime(before, dir, entries)
  {
    assert entries[i] in entries;
  }

  method CopyFiles(ghost promise: Promise, disk: Disk, dir: seq<string>, entries: seq<(string, Path)>,
                   dryRun: bool, backup: bool, timestamp: string)
    returns (ok: bool)
    requires promise.Holds(disk.files) && (promise.paths != {} ==> backup) && DistinctNames(entries)
    requires forall e | e in entries :: Path(dir, e.0) in promise.base.before
    modifies disk`files, disk`faults
    ensures old(disk.faults) <= disk.faults
    ensures promise.Holds(disk.files)
    ensures dryRun ==> disk.files == old(disk.files)
    ensures old(disk.files).Keys <= disk.files.Keys
    ensures ok ==> disk.faults == old(disk.faults)
    ensures !dryRun && SourcesThere(old(disk.files), dir, entries) ==>
      (ok <==> disk.faults == old(disk.faults) && InTime(old(disk.files), dir, entries))
    ensures !dryRun && ok ==> SourcesKept(old(disk.files), disk.files, dir)
    ensures dryRun && (forall e | e in entries :: IsRegular(old(disk.files), e.1)) ==>
      (ok <==> disk.faults == old(disk.faults))
    ensures ok && !dryRun ==> TouchedOnly(old(disk.files), disk.files, dir, Names(entries))
    ensures ok && !dryRun && SourcesApart(dir, entries) ==> Installed(old(disk.files), disk.files, dir, entries)
    ensures MARKER_NAME !in Names(entries) ==> MarkersKept(old(disk.files), disk.files)
  {
    hide Safe, MarkersKept, CopiedSoFar, Changed, SourcesThere, InTime, SourcesKept, TouchedOnly, Installed,
      DistinctNames;
    ghost var before := disk.files;
    MarkersKeptAtFirst(before);
    NothingCopied(before, dir, entries);
    for i := 0 to |entries|
      invariant promise.Holds(disk.files)
      invariant dryRun ==> disk.files == before
      invariant before.Keys <= disk.files.Keys && disk.faults == old(disk.faults)
      invariant !dryRun ==> CopiedSoFar(before, disk.files, dir, entries, i)
      invariant MARKER_NAME !in Names(entries) ==> MarkersKept(before, disk.files)
    {
      var e := entries[i];
      ghost var now := disk.files;
      assert e in entries;
      if !dryRun { NotFound(before, now, dir, entries, i); }
      ok := CopyFile(promise, disk, e.1, Path(dir, e.0), dryRun, backup, timestamp);
      MarkersKeptThrough(before, now, disk.files);
      if !ok { return; }
      if !dryRun { CopiedNext(before, now, disk.files, dir, entries, i, backup); }
    }
    if !dryRun { AllCopied(before, disk.files, dir, entries); }
    ok := true;
  }

  /** What the first `i` copies have done. */
  ghost predicate CopiedSoFar(before: FileMap, now: FileMap, dir: seq<string>, entries: seq<(string, Path)>, i: nat)
    requires i <= |entries|
  {
    && (SourcesThere(before, dir, entries) ==> FoundSoFar(before, now, dir, entries, i))
    && SourcesKept(before, now, dir) && TouchedOnly(before, now, dir, Names(entries[..i]))
    && (SourcesApart(dir, entries) ==> Installed(before, now, dir, entries[..i]))
  }

  lemma NothingCopied(files: FileMap, dir: seq<string>, entries: seq<(string, Path)>)
    ensures CopiedSoFar(files, files, dir, entries, 0)
  {
  }

  lemma CopiedNext(before: FileMap, now: FileMap, after: FileMap, dir: seq<string>, entries: seq<(string, Path)>,
                   i: nat, backup: bool)
    requires i < |entries| && DistinctNames(entries) && CopiedSoFar(before, now, dir, entries, i)
    requires IsRegular(now, entries[i].1)
    requires Changed(now, after, Path(dir, entries[i].0),
      Some(Regular(DEFAULT_MODE, now[entries[i].1].content)), backup)
    ensures CopiedSoFar(before, after, dir, entries, i + 1)
  {
    var node := Regular(DEFAULT_MODE, now[entries[i].1].content);
    ChangedTouchesOnly(now, after, Path(dir, entries[i].0), Some(node), backup);
    ChangedKeepsSources(before, now, after, dir, Path(dir, entries[i].0), node, backup);
    if SourcesThere(before, dir, entries) { FoundNext(before, now, after, dir, entries, i, backup); }
    TouchedAgain(before, now, after, dir, entries, i);
    if SourcesApart(dir, entries) { InstalledAgain(before, now, after, dir, entries, i); }
    hide FoundSoFar, SourcesKept, TouchedOnly, Installed, Changed;
  }

  lemma ChangedKeepsSources(before: FileMap, now: FileMap, after: FileMap, dir: seq<string>, p: Path, node: Node,
                            backup: bool)
    requires SourcesKept(before, now, dir) && Changed(now, after, p, Some(node), backup) && node.Regular?
    ensures SourcesKept(before, after, dir)
  {
  }

  lemma AllCopied(before: FileMap, now: FileMap, dir: seq<string>, entries: seq<(string, Path)>)
    requires CopiedSoFar(before, now, dir, entries, |entries|)
    ensures SourcesThere(before, dir, entries) ==> InTime(before, dir, entries)
    ensures SourcesKept(before, now, dir) && TouchedOnly(before, now, dir, Names(entries))
    ensures SourcesApart(dir, entries) ==> Installed(before, now, dir, entries)
  {
    assert entries[..|entries|] == entries;
  }

  lemma TouchedAgain(before: FileMap, now: FileMap, after: FileMap, dir: seq<string>,
                     entries: seq<(string, Path)>, i: nat)
    requires i < |entries|
    requires TouchedOnly(before, now, dir, Names(entries[..i])) && TouchedOnly(now, after, dir, {entries[i].0})
    ensures TouchedOnly(before, after, dir, Names(entries[..i + 1]))
  {
    hide IsBackupOf;
    assert entries[..i + 1] == entries[..i] + [entries[i]];
    assert Names(entries[..i + 1]) == Names(entries[..i]) + {entries[i].0};
  }

  lemma InstalledAgain(before: FileMap, now: FileMap, after: FileMap, dir: seq<string>,
                       entries: seq<(string, Path)>, i: nat)
    requires i < |entries| && DistinctNames(entries) && SourcesApart(dir, entries)
    requires TouchedOnly(before, now, dir, Names(entries[..i])) && TouchedOnly(now, after, dir, {entries[i].0})
    requires IsRegular(now, entries[i].1)
    requires Path(dir, entries[i].0) in after
      && after[Path(dir, entries[i].0)] == Regular(DEFAULT_MODE, now[entries[i].1].content)
    requires Installed(before, now, dir, entries[..i])
    ensures Installed(before, after, dir, entries[..i + 1])
  {
    hide IsBackupOf;
    assert entries[..i + 1] == entries[..i] + [entries[i]];
    assert entries[i] in entries;
  }

  // ----- the whole apply ----------------------------------------------------------------------

  /** The runtime directory is no drop-in directory and holds none of the sources. */
  ghost predicate Apart(etc: seq<string>, runtimeDir: seq<string>, profile: Profile) {
    SourcesApart(runtimeDir, profile.Entries()) && forall p | IsDropinPath(etc, p) :: p.dir != runtimeDir
  }

  /** When the directories are apart: every listed file is there, no stale flick.json, and exactly
      the desired drop-ins. */
  ghost predicate InPlace(before: FileMap, after: FileMap, etc: seq<string>, runtimeDir: seq<string>,
                          profile: Profile, plan: DropinPlan) {
    Apart(etc, runtimeDir, profile) ==>
      && Installed(before, after, runtimeDir, profile.Entries())
      && (FLICK_NAME !in Names(profile.Entries()) ==> Path(runtimeDir, FLICK_NAME) !in after)
      && DropinsExact(etc, after, plan.desired)
  }

  /** What a successful apply leaves behind: the files in place, and the marker. */
  ghost predicate Complete(before: FileMap, after: FileMap, etc: seq<string>, runtimeDir: seq<string>,
                           profile: Profile, plan: DropinPlan, marker: string) {
    var markerPath := Path(runtimeDir, MARKER_NAME);
    && markerPath in after && after[markerPath] == Regular(DEFAULT_MODE, marker)
    && InPlace(before, after, etc, runtimeDir, profile, plan)
  }

  /** After the file sections: listed files are installed and flick.json is gone or installed. */
  ghost predicate SectionsDone(before: FileMap, after: FileMap, runtimeDir: seq<string>, profile: Profile) {
    && TouchedOnly(before, after, runtimeDir, Names(profile.Entries()) + {FLICK_NAME})
    && (SourcesApart(runtimeDir, profile.Entries()) ==>
          && Installed(before, after, runtimeDir, profile.Entries())
          && (FLICK_NAME !in Names(profile.Entries()) ==> Path(runtimeDir, FLICK_NAME) !in after))
  }

  lemma SectionsCombine(before: FileMap, copied: FileMap, cleaned: FileMap, after: FileMap,
                        dir: seq<string>, profile: Profile)
    requires DistinctNames(profile.Entries())
    requires TouchedOnly(before, copied, dir, Names(profile.runtimeFiles))
    requires SourcesApart(dir, profile.runtimeFiles) ==> Installed(before, copied, dir, profile.runtimeFiles)
    requires if FLICK_NAME in Names(profile.runtimeFiles) then cleaned == copied
             else TouchedOnly(copied, cleaned, dir, {FLICK_NAME}) && Path(dir, FLICK_NAME) !in cleaned
    requires TouchedOnly(cleaned, after, dir, Names(profile.configFiles))
    requires SourcesApart(dir, profile.configFiles) ==> Installed(cleaned, after, dir, profile.configFiles)
    ensures SectionsDone(before, after, dir, profile)
  {
    var entries, flick := profile.Entries(), Path(dir, FLICK_NAME);
    assert Names(entries) == Names(profile.runtimeFiles) + Names(profile.configFiles);
    OwnNamesAreNoBackups(flick);
    if SourcesApart(dir, entries) {
      assert forall e | e in profile.runtimeFiles :: e in entries;
      assert forall e | e in profile.configFiles :: e in entries;
      forall e | e in entries
        ensures IsRegular(before, e.1) && Path(dir, e.0) in after
          && after[Path(dir, e.0)] == Regular(DEFAULT_MODE, before[e.1].content)
      {
        if e in profile.runtimeFiles {
          RuntimeNameNotConfig(profile, e);
          assert e.0 in Names(profile.runtimeFiles);
        } else {
          assert e in profile.configFiles && e.1 in cleaned && e.1 in copied;
        }
      }
    }
  }

  lemma RuntimeNameNotConfig(profile: Profile, e: (string, Path))
    requires DistinctNames(profile.Entries()) && e in profile.runtimeFiles
    ensures e.0 !in Names(profile.configFiles)
  {
    var i :| 0 <= i < |profile.runtimeFiles| && profile.runtimeFiles[i] == e;
    forall f | f in profile.configFiles
      ensures f.0 != e.0
    {
      var j :| 0 <= j < |profile.configFiles| && profile.configFiles[j] == f;
      assert profile.Entries()[i] == e && profile.Entries()[|profile.runtimeFiles| + j] == f;
    }
  }

  /** The flick.json that the sections remove is the source of a configuration file that comes
      before any file copied to flick.json again. */
  predicate LosesSource(profile: Profile, runtimeDir: seq<string>) {
    FLICK_NAME !in Names(profile.runtimeFiles) && !ComesFirst(runtimeDir, profile.configFiles)
  }

  method ApplySections(ghost promise: Promise, disk: Disk, runtimeDir: seq<string>, profile: Profile,
                       dryRun: bool, backup: bool, timestamp: string)
    returns (ok: bool)
    requires promise.Holds(disk.files) && (promise.paths != {} ==> backup) && DistinctNames(profile.Entries())
    requires forall e | e in profile.Entries() :: Path(runtimeDir, e.0) in promise.base.before
    requires Path(runtimeDir, FLICK_NAME) in promise.base.before
    modifies disk`files, disk`faults
    ensures old(disk.faults) <= disk.faults
    ensures promise.Holds(disk.files)
    ensures dryRun ==> disk.files == old(disk.files)
    ensures ok ==> forall p | p in old(disk.files) && p.name != FLICK_NAME :: p in disk.files
    ensures ok ==> disk.faults == old(disk.faults)
    ensures (forall e | e in profile.Entries() :: IsRegular(old(disk.files), e.1)) ==>
      (ok <==> disk.faults == old(disk.faults) && (dryRun || !LosesSource(profile, runtimeDir)))
    ensures ok && !dryRun ==> SectionsDone(old(disk.files), disk.files, runtimeDir, profile)
    ensures MARKER_NAME !in Names(profile.Entries()) ==> MarkersKept(old(disk.files), disk.files)
  {
    hide Safe, Changed, TouchedOnly, Installed, SectionsDone, InTime, ComesFirst, SourcesThere, SourcesKept,
      LosesSource, MarkersKept, DistinctNames;
    ghost var before := disk.files;
    var flick := Path(runtimeDir, FLICK_NAME);
    MarkersKeptAtFirst(before);
    SplitEntries(profile);
    OwnNamesAreNoBackups(flick);
    if forall e | e in profile.Entries() :: IsRegular(before, e.1) {
      AllSourcesThere(before, runtimeDir, profile);
    }
    ok := CopyFiles(promise, disk, runtimeDir, profile.runtimeFiles, dryRun, backup, timestamp);
    if !ok { return; }
    ghost var copied := disk.files;
    if FLICK_NAME !in Names(profile.runtimeFiles) {
      ok := RemoveRuntimeFile(promise, disk, flick, dryRun, backup, timestamp);
      MarkersKeptThrough(before, copied, disk.files);
      if !ok { return; }
      if !dryRun {
        RemovedTouchesOnly(copied, disk.files, flick, backup);
      }
    }
    MarkersKeptThrough(before, copied, disk.files);
    if !dryRun && forall e | e in profile.Entries() :: IsRegular(before, e.1) {
      SourcesAfterRemoval(before, copied, disk.files, runtimeDir, profile);
    }
    ghost var cleaned := disk.files;
    ok := CopyFiles(promise, disk, runtimeDir, profile.configFiles, dryRun, backup, timestamp);
    MarkersKeptThrough(before, cleaned, disk.files);
    if ok && !dryRun {
      SectionsCombine(before, copied, cleaned, disk.files, runtimeDir, profile);
    }
  }

  lemma MarkersKeptThrough(a: FileMap, b: FileMap, c: FileMap)
    ensures MarkersKept(b, b)
    ensures MarkersKept(a, b) && MarkersKept(b, c) ==> MarkersKept(a, c)
  {
  }

  lemma AllSourcesThere(before: FileMap, dir: seq<string>, profile: Profile)
    requires forall e | e in profile.Entries() :: IsRegular(before, e.1)
    ensures SourcesThere(before, dir, profile.runtimeFiles) && InTime(before, dir, profile.runtimeFiles)
  {
    assert forall i | 0 <= i < |profile.runtimeFiles| :: profile.runtimeFiles[i] in profile.Entries();
    assert forall e | e in profile.runtimeFiles :: e in profile.Entries();
  }

  /** The configuration files find their sources unless they need the removed flick.json. */
  lemma SourcesAfterRemoval(before: FileMap, copied: FileMap, cleaned: FileMap, dir: seq<string>, profile: Profile)
    requires forall e | e in profile.Entries() :: IsRegular(before, e.1)
    requires SourcesKept(before, copied, dir)
    requires if FLICK_NAME in Names(profile.runtimeFiles) then cleaned == copied
             else TouchedOnly(copied, cleaned, dir, {FLICK_NAME}) && Path(dir, FLICK_NAME) !in cleaned
    ensures SourcesThere(cleaned, dir, profile.configFiles)
    ensures InTime(cleaned, dir, profile.configFiles) <==> !LosesSource(profile, dir)
  {
    assert forall e | e in profile.configFiles :: e in profile.Entries();
    if FLICK_NAME in Names(profile.runtimeFiles) && !ComesFirst(dir, profile.configFiles) {
      var i :| 0 <= i < |profile.configFiles| && profile.configFiles[i].1 == Path(dir, FLICK_NAME)
        && FLICK_NAME !in Names(profile.configFiles[..i]);
      assert profile.configFiles[i] in profile.Entries();
    }
  }

  lemma RemovedTouchesOnly(before: FileMap, after: FileMap, p: Path, backup: bool)
    requires if p in before then Changed(before, after, p, None, backup) else after == before
    ensures TouchedOnly(before, after, p.dir, {p.name}) && p !in after
  {
  }

  lemma SplitEntries(profile: Profile)
    requires DistinctNames(profile.Entries())
    ensures DistinctNames(profile.runtimeFiles) && DistinctNames(profile.configFiles)
    ensures forall e | e in profile.runtimeFiles :: e in profile.Entries()
    ensures forall e | e in profile.configFiles :: e in profile.Entries()
  {
    var entries := profile.Entries();
    assert profile.runtimeFiles == entries[..|profile.runtimeFiles|];
    assert profile.configFiles == entries[|profile.runtimeFiles|..];
    forall i, j | 0 <= i < j < |profile.runtimeFiles|
      ensures profile.runtimeFiles[i].0 != profile.runtimeFiles[j].0
    {
      assert entries[i].0 != entries[j].0;
    }
    forall i, j | 0 <= i < j < |profile.configFiles|
      ensures profile.configFiles[i].0 != profile.configFiles[j].0
    {
      assert entries[|profile.runtimeFiles| + i].0 != entries[|profile.runtimeFiles| + j].0;
    }
  }

  /** Reconciled drop-ins put everything in place when the sections are done. */
  lemma AllInPlace(before: FileMap, sections: FileMap, reconciled: FileMap, etc: seq<string>,
                   runtimeDir: seq<string>, profile: Profile, plan: DropinPlan, backup: bool)
    requires OwnsAll(etc, before, plan) && (forall p | p in plan.desired :: IsDropinPath(etc, p))
    requires SectionsDone(before, sections, runtimeDir, profile)
    requires DropinsWritten(sections, reconciled, plan, backup)
    ensures InPlace(before, reconciled, etc, runtimeDir, profile, plan)
  {
    hide DropinsWritten, OwnsAll, Unchanged;
    if Apart(etc, runtimeDir, profile) {
      StillOwnsAll(before, sections, etc, runtimeDir, profile, plan);
      DropinsBecomeExact(etc, sections, reconciled, plan, backup);
      RuntimeFilesKept(sections, reconciled, plan, backup, runtimeDir);
    }
  }

  /** What is written afterwards is none of these files. */
  lemma StaysInPlace(before: FileMap, reconciled: FileMap, after: FileMap, etc: seq<string>,
                     runtimeDir: seq<string>, profile: Profile, plan: DropinPlan, p: Path)
    requires InPlace(before, reconciled, etc, runtimeDir, profile, plan)
    requires after - {p} == reconciled - {p} && p.name !in {FLICK_NAME, DROPIN_NAME}
    requires p in reconciled ==> forall e | e in profile.Entries() :: Path(runtimeDir, e.0) != p
    requires forall q | q in plan.desired :: IsDropinPath(etc, q)
    ensures InPlace(before, after, etc, runtimeDir, profile, plan)
  {
    SameElsewhere(reconciled, after, p);
  }

  /** Reconciled drop-ins and a fresh marker complete an apply whose sections are done. */
  lemma CompleteApply(before: FileMap, sections: FileMap, reconciled: FileMap, after: FileMap, etc: seq<string>,
                      runtimeDir: seq<string>, profile: Profile, plan: DropinPlan, marker: string, backup: bool)
    requires OwnsAll(etc, before, plan) && (forall p | p in plan.desired :: IsDropinPath(etc, p))
    requires forall e | e in profile.Entries() :: e.0 != MARKER_NAME
    requires SectionsDone(before, sections, runtimeDir, profile)
    requires DropinsWritten(sections, reconciled, plan, backup)
    requires after == reconciled[Path(runtimeDir, MARKER_NAME) := Regular(DEFAULT_MODE, marker)]
    requires plan.Valid()
    ensures Complete(before, after, etc, runtimeDir, profile, plan, marker)
    ensures SparesMarkerName(profile) ==> NoMarkerBackup(before, after, runtimeDir)
  {
    hide DropinsWritten, OwnsAll, Unchanged, InPlace, SectionsDone, IsDropinPath;
    var markerPath := Path(runtimeDir, MARKER_NAME);
    AllInPlace(before, sections, reconciled, etc, runtimeDir, profile, plan, backup);
    assert after - {markerPath} == reconciled - {markerPath};
    StaysInPlace(before, reconciled, after, etc, runtimeDir, profile, plan, markerPath);
    if SparesMarkerName(profile) {
      SectionsMakeNoMarkerBackup(before, sections, runtimeDir, profile);
      DropinsMakeNoMarkerBackup(sections, reconciled, plan, backup, runtimeDir);
      BackupIsNotItself(markerPath);
    }
  }

  lemma BackupIsNotItself(p: Path)
    ensures !IsBackupOf(p, p)
  {
  }

  /** No listed file is named like a backup of the marker, or could be the name of one. */
  predicate SparesMarkerName(profile: Profile) {
    forall e | e in profile.Entries() :: !(MARKER_NAME + ".bak" <= e.0)
  }

  /** The run has made no backup of the marker. */
  ghost predicate NoMarkerBackup(before: FileMap, after: FileMap, runtimeDir: seq<string>) {
    forall q | q in after && IsBackupOf(q, Path(runtimeDir, MARKER_NAME)) :: q in before
  }

  /** In the start of a name of a backup of the marker, a dot is followed by a `b` only there. */
  lemma DotBInBackup(k: nat)
    requires var start := MARKER_NAME + ".bak.";
      k + 1 < |start| && start[k] == '.' && start[k + 1] == 'b'
    ensures k == |MARKER_NAME|
  {
    if k + 1 < |MARKER_NAME| { NoDotB(MARKER_NAME, k); }
  }

  /** A backup of another file is a backup of the marker only if that file is named like one. */
  lemma BackupOfOther(q: Path, p: Path, marker: Path)
    requires IsBackupOf(q, p) && IsBackupOf(q, marker) && marker.name == MARKER_NAME
    ensures p.name == MARKER_NAME || MARKER_NAME + ".bak" <= p.name
  {
    var n, m, text, name, start := |p.name|, |MARKER_NAME|, q.name, p.name, MARKER_NAME + ".bak.";
    assert forall k | 0 <= k < |start| :: text[k] == start[k];
    assert forall k | 0 <= k < n + 5 :: text[k] == (name + ".bak.")[k];
    assert forall k | 0 <= k < n :: name[k] == (name + ".bak.")[k];
    assert forall k | 0 <= k < m :: MARKER_NAME[k] == start[k];
    if n < m + 4 {
      assert text[n] == '.' && text[n + 1] == 'b';
      DotBInBackup(n);
      assert name == MARKER_NAME;
    } else {
      var longer := MARKER_NAME + ".bak";
      assert start == longer + ".";
      assert forall k | 0 <= k < m + 4 :: longer[k] == start[k];
    }
  }

  lemma SectionsMakeNoMarkerBackup(before: FileMap, sections: FileMap, dir: seq<string>, profile: Profile)
    requires SectionsDone(before, sections, dir, profile) && SparesMarkerName(profile)
    requires forall e | e in profile.Entries() :: e.0 != MARKER_NAME
    ensures NoMarkerBackup(before, sections, dir)
  {
    var names, marker := Names(profile.Entries()) + {FLICK_NAME}, Path(dir, MARKER_NAME);
    forall q | q in sections && IsBackupOf(q, marker)
      ensures q in before
    {
      assert MARKER_NAME + ".bak" <= MARKER_NAME + ".bak." <= q.name;
      if q !in before && q.name !in names {
        var name :| name in names && IsBackupOf(q, Path(dir, name));
        BackupOfOther(q, Path(dir, name), marker);
      }
    }
  }

  /** Files that write_dropins adds are drop-ins and backups of drop-ins. */
  lemma NewDropinFile(before: FileMap, after: FileMap, plan: DropinPlan, backup: bool, q: Path)
    requires DropinsWritten(before, after, plan, backup) && plan.Valid() && q in after && q !in before
    ensures q.name == DROPIN_NAME || exists p: Path :: p.name == DROPIN_NAME && IsBackupOf(q, p)
  {
    hide IsBackupOf, Unchanged;
  }

  lemma DropinsMakeNoMarkerBackup(sections: FileMap, reconciled: FileMap, plan: DropinPlan, backup: bool,
                                  dir: seq<string>)
    requires DropinsWritten(sections, reconciled, plan, backup) && plan.Valid()
    ensures NoMarkerBackup(sections, reconciled, dir)
  {
    hide IsBackupOf, DropinsWritten, DropinPlan.Valid;
    var marker := Path(dir, MARKER_NAME);
    assert !(MARKER_NAME + ".bak" <= DROPIN_NAME) by { assert MARKER_NAME[0] != DROPIN_NAME[0]; }
    forall q | q in reconciled && IsBackupOf(q, marker)
      ensures q in sections
    {
      if q !in sections {
        NewDropinFile(sections, reconciled, plan, backup, q);
        if q.name == DROPIN_NAME {
          OwnNamesAreNoBackups(q);
        } else {
          var p: Path :| p.name == DROPIN_NAME && IsBackupOf(q, p);
          BackupOfOther(q, p, marker);
        }
      }
    }
  }

  lemma StillOwnsAll(before: FileMap, sections: FileMap, etc: seq<string>, runtimeDir: seq<string>,
                     profile: Profile, plan: DropinPlan)
    requires OwnsAll(etc, before, plan) && (forall p | p in plan.desired :: IsDropinPath(etc, p))
    requires SectionsDone(before, sections, runtimeDir, profile) && Apart(etc, runtimeDir, profile)
    ensures OwnsAll(etc, sections, plan)
    ensures forall p | p in plan.owned || p in plan.desired :: p.dir != runtimeDir
  {
  }

  /** write_dropins neither changes nor creates a file of the runtime directory, backups aside. */
  lemma RuntimeFilesKept(before: FileMap, after: FileMap, plan: DropinPlan, backup: bool, dir: seq<string>)
    requires DropinsWritten(before, after, plan, backup)
    requires forall p | p in plan.owned || p in plan.desired :: p.dir != dir
    ensures forall p | p in before && p.dir == dir :: p in after && after[p] == before[p]
    ensures Path(dir, FLICK_NAME) !in before ==> Path(dir, FLICK_NAME) !in after
  {
  }

  /** _apply_profile: sections, drop-ins, services, and the marker last and without a backup.
      `replaced` tells whether the marker was renamed into place. */
  method ApplySteps(ghost promise: Promise, disk: Disk, services: ServiceManager, ghost etc: seq<string>,
                    runtimeDir: seq<string>, profile: Profile, plan: DropinPlan, marker: string,
                    dryRun: bool, restart: bool, backup: bool, timestamp: string)
    returns (ok: bool, replaced: bool)
    requires promise.Holds(disk.files) && (promise.paths != {} ==> backup)
    requires DistinctNames(profile.Entries()) && (forall e | e in profile.Entries() :: e.0 != MARKER_NAME)
    requires plan.Valid() && OwnsAll(etc, disk.files, plan) && (forall p | p in plan.desired :: IsDropinPath(etc, p))
    requires promise.base.Of(disk.files) && promise.base.before.Keys == Tracked(runtimeDir, profile, plan)
    modifies disk`files, disk`faults, services
    ensures old(disk.faults) <= disk.faults && old(services.faults) <= services.faults
    ensures dryRun ==> disk.files == old(disk.files) && services.log == old(services.log)
    ensures Continues(old(services.log), services.log, Operations(profile.services, restart))
    ensures services.log != old(services.log) ==>
      InPlace(old(disk.files), disk.files, etc, runtimeDir, profile, plan)
    ensures replaced ==> services.log == old(services.log) + Completed(Operations(profile.services, restart))
    ensures ok && !dryRun ==> replaced
    ensures if replaced
      then Complete(old(disk.files), disk.files, etc, runtimeDir, profile, plan, marker)
      else promise.Holds(disk.files) && MarkersKept(old(disk.files), disk.files)
    ensures replaced && SparesMarkerName(profile) ==> NoMarkerBackup(old(disk.files), disk.files, runtimeDir)
    ensures Safe(promise.base, disk.files, promise.paths - {Path(runtimeDir, MARKER_NAME)})
    ensures (forall e | e in profile.Entries() :: IsRegular(old(disk.files), e.1)) ==> (
      ok <==> (
        && disk.faults == old(disk.faults) && services.faults == old(services.faults)
        && (dryRun || !LosesSource(profile, runtimeDir))))
  {
    hide Safe, Tracked, MarkersKept, SectionsDone, DropinsWritten, Complete, InPlace, IsBackupOf, LosesSource,
      Operations, Continues, SparesMarkerName, NoMarkerBackup;
    ghost var before, base := disk.files, promise.base;
    var markerPath := Path(runtimeDir, MARKER_NAME);
    replaced := false;
    TrackedContains(runtimeDir, profile, plan, base);
    LessIsSafe(promise, markerPath);
    MarkersKeptAtFirst(before);
    NothingAttempted(services.log, Operations(profile.services, restart));
    ok := disk.Step();
    if !ok { return; }
    ok := ApplySections(promise, disk, runtimeDir, profile, dryRun, backup, timestamp);
    if !ok { return; }
    ghost var sections := disk.files;
    DropinsStillPlanned(base, etc, before, sections, plan);
    ok := WriteDropins(promise, disk, plan, dryRun, backup, timestamp);
    MarkersKeptTwice(before, sections, disk.files);
    if !ok || dryRun { return; }
    ghost var reconciled := disk.files;
    AllInPlace(before, sections, reconciled, etc, runtimeDir, profile, plan, backup);
    ok := services.PerformAll(Operations(profile.services, restart));
    if !ok { return; }
    ok, replaced := AtomicContent(disk, markerPath, marker, DEFAULT_MODE);
    if replaced {
      OwnNamesAreNoBackups(markerPath);
      assert disk.files - {markerPath} == reconciled - {markerPath};
      ChangeOutsideBackups(base, promise.paths, reconciled, disk.files, markerPath);
      CompleteApply(before, sections, reconciled, disk.files, etc, runtimeDir, profile, plan, marker, backup);
      CompleteIsInPlace(before, disk.files, etc, runtimeDir, profile, plan, marker);
    } else {
      ghost var t :| IsTemporaryOf(t, markerPath) && t != markerPath && Disturbed(reconciled, disk.files, t);
      DisturbingIsSafe(base, promise.paths, reconciled, disk.files, t);
      HelpersAreNoMarkers(t, markerPath);
      MarkersKeptBeside(reconciled, disk.files, t);
      MarkersKeptTwice(before, reconciled, disk.files);
      TemporaryStaysOut(t, markerPath);
      StaysInPlace(before, reconciled, disk.files, etc, runtimeDir, profile, plan, t);
    }
  }

  lemma NothingAttempted(log: seq<Attempt>, operations: seq<Operation>)
    ensures Continues(log, log, operations)
  {
  }

  lemma CompleteIsInPlace(before: FileMap, after: FileMap, etc: seq<string>, runtimeDir: seq<string>,
                          profile: Profile, plan: DropinPlan, marker: string)
    requires Complete(before, after, etc, runtimeDir, profile, plan, marker)
    ensures InPlace(before, after, etc, runtimeDir, profile, plan)
  {
    hide InPlace;
  }

  lemma TemporaryStaysOut(t: Path, p: Path)
    requires IsTemporaryOf(t, p)
    ensures t.name !in {FLICK_NAME, DROPIN_NAME}
  {
    assert ("." + p.name + ".")[0] == '.' == t.name[0];
  }

  lemma DropinsStillPlanned(base: Baseline, etc: seq<string>, before: FileMap, sections: FileMap, plan: DropinPlan)
    requires base.Of(before) && OwnsAll(etc, before, plan) && plan.Valid()
    requires forall p | p in plan.order + plan.owned :: p in base.before
    requires forall p | p in before && p.name != FLICK_NAME :: p in sections
    ensures forall p | p in plan.owned :: p in sections
    ensures forall p | p in plan.desired && p !in plan.owned :: p in base.before && base.before[p] == Absent
  {
    hide IsDropinPath, IsBackupOf;
    assert forall p | p in plan.desired :: p in set q | q in plan.order;
    assert forall p | p in plan.owned :: p in plan.order + plan.owned;
  }

  lemma LessIsSafe(promise: Promise, p: Path)
    ensures forall files: FileMap | promise.Holds(files) :: Safe(promise.base, files, promise.paths - {p})
  {
  }

  lemma TrackedContains(runtimeDir: seq<string>, profile: Profile, plan: DropinPlan, base: Baseline)
    requires base.before.Keys == Tracked(runtimeDir, profile, plan) && plan.Valid()
    ensures forall e | e in profile.Entries() :: Path(runtimeDir, e.0) in base.before
    ensures Path(runtimeDir, FLICK_NAME) in base.before && Path(runtimeDir, MARKER_NAME) in base.before
    ensures forall p | p in plan.order + plan.owned :: p in base.before
    ensures forall p | p in plan.desired :: p in base.before
  {
  }

  lemma PlanIsValid(sha: Hash, etc: seq<string>, files: FileMap, plan: DropinPlan, owned: set<Path>)
    requires OwnedDropins(sha, etc, files, plan.desired) == Some(owned)
    requires forall p | p in plan.desired :: IsDropinPath(etc, p)
    requires StrictTotalOrder(PathLess) && plan.owned == Sorted(PathLess, owned)
    requires (set p | p in plan.order) == plan.desired.Keys
    requires forall i, j | 0 <= i < j < |plan.order| :: plan.order[i] != plan.order[j]
    ensures plan.Valid() && PlannedOn(sha, etc, files, plan) && OwnsAll(etc, files, plan)
  {
    hide PathLess;
    SortedIsSet(PathLess, owned);
    OwnedAreDropins(sha, etc, files, plan.desired);
    PlanShape(plan, owned);
    assert PlannedOn(sha, etc, files, plan);
    hide OwnedDropins, IsDropinPath, DropinPlan.Valid, PlannedOn, StrictTotalOrder;
    forall p {
      PlannedPaths(sha, etc, files, plan, p);
    }
  }

  lemma PlanShape(plan: DropinPlan, owned: set<Path>)
    requires (set p | p in plan.owned) == owned && forall p | p in owned :: p.name == DROPIN_NAME
    requires forall i, j | 0 <= i < j < |plan.owned| :: plan.owned[i] != plan.owned[j]
    requires (set p | p in plan.order) == plan.desired.Keys && forall p | p in plan.desired :: p.name == DROPIN_NAME
    requires forall i, j | 0 <= i < j < |plan.order| :: plan.order[i] != plan.order[j]
    ensures plan.Valid()
  {
  }

  lemma OwnedAreDropins(sha: Hash, etc: seq<string>, files: FileMap, desired: map<Path, string>)
    requires OwnedDropins(sha, etc, files, desired).Some?
    requires forall p | p in desired :: IsDropinPath(etc, p)
    ensures forall p | p in OwnedDropins(sha, etc, files, desired).value :: p.name == DROPIN_NAME
  {
  }

  lemma TrackedIsPlain(sha: Hash, etc: seq<string>, runtimeDir: seq<string>, profile: Profile,
                       plan: DropinPlan, files: FileMap)
    requires Accepts(sha, etc, runtimeDir, profile, files)
    requires PlannedOn(sha, etc, files, plan)
    ensures forall p | p in Tracked(runtimeDir, profile, plan) :: PlainOrAbsent(files, p)
  {
    hide OwnedDropins, Acceptable, PlannedOn, PlannedDropins, IsDropinPath, UnitName;
    forall p | p in plan.owned || p in plan.desired
      ensures PlainOrAbsent(files, p)
    {
      PlannedPaths(sha, etc, files, plan, p);
    }
  }

  lemma ApplyIsRecovered(promise: Promise, files: FileMap, marker: Path, replaced: bool)
    requires Safe(promise.base, files, promise.paths - {marker}) && (!replaced ==> promise.Holds(files))
    ensures PlainlyTracked(promise.base, files)
    ensures forall p | p in promise.paths && (p != marker || !replaced) :: Recoverable(promise.base, files, p)
  {
  }

  lemma MarkerRecovers(base: Baseline, before: FileMap, files: FileMap, etc: seq<string>,
                       runtimeDir: seq<string>, profile: Profile, plan: DropinPlan, marker: string)
    requires base.Of(before) && Complete(before, files, etc, runtimeDir, profile, plan, marker)
    requires Path(runtimeDir, MARKER_NAME) in base.before && PlainlyTracked(base, files)
    ensures var markerPath := Path(runtimeDir, MARKER_NAME);
      Recoverable(base, files, markerPath)
      <==> MarkerIsSafe(before, markerPath, marker) || VerifiedBackups(base, files, markerPath) != {}
  {
    hide InPlace;
  }

  /** The marker comes back without its own backup: it was absent, or is what it was. */
  predicate MarkerIsSafe(files: FileMap, markerPath: Path, marker: string) {
    markerPath !in files || files[markerPath] == Regular(DEFAULT_MODE, marker)
  }

  /** apply_profile.  A refusal changes nothing.  Services are called in order, and only when all
      files are in place; the marker is renamed when all calls are completed, and until then it is
      as it was.  Without faults an accepted profile is applied, unless a configuration file is to
      be copied from the flick.json that was removed before.  After a failure with backups,
      running the reported commands restores every tracked path but a marker that was renamed;
      that one comes back exactly if it was absent, had the new content already, or the run made
      a backup of it. */
  method ApplyProfile(disk: Disk, services: ServiceManager, sha: Hash, etc: seq<string>, runtimeDir: seq<string>,
                      profile: Profile, order: seq<Path>, marker: string,
                      dryRun: bool, restart: bool, backup: bool, timestamp: string)
    returns (outcome: Outcome, ghost base: Baseline, ghost plan: DropinPlan, replaced: bool)
    requires (set p | p in order) == PlannedDropins(sha, etc, profile.dropins).Keys
    requires forall i, j | 0 <= i < j < |order| :: order[i] != order[j]
    modifies disk`files, disk`faults, services
    ensures outcome.Refused? <==> !Accepts(sha, etc, runtimeDir, profile, old(disk.files))
    ensures OneLine(sha) ==> (outcome.Refused? <==> (
      || IsBadName(profile) || IsBadFile(runtimeDir, profile, old(disk.files)) || IsBadService(profile)
      || IsBadDropin(sha, etc, profile, old(disk.files))))
    ensures outcome.Refused? || dryRun ==> disk.files == old(disk.files) && services.log == old(services.log)
    ensures outcome.Applied? <==> (
      && Accepts(sha, etc, runtimeDir, profile, old(disk.files))
      && disk.faults == old(disk.faults) && services.faults == old(services.faults)
      && (dryRun || !LosesSource(profile, runtimeDir)))
    ensures !outcome.Refused? ==>
      && plan.desired == PlannedDropins(sha, etc, profile.dropins) && PlannedOn(sha, etc, old(disk.files), plan)
      && base.Of(old(disk.files)) && base.before.Keys == Tracked(runtimeDir, profile, plan)
    ensures Continues(old(services.log), services.log, Operations(profile.services, restart))
    ensures outcome.Failed? && !dryRun ==> services.log == old(services.log) + outcome.attempts
    ensures services.log != old(services.log) ==>
      InPlace(old(disk.files), disk.files, etc, runtimeDir, profile, plan)
    ensures replaced ==> services.log == old(services.log) + Completed(Operations(profile.services, restart))
    ensures outcome.Applied? && !dryRun ==> replaced
    ensures if replaced
      then Complete(old(disk.files), disk.files, etc, runtimeDir, profile, plan, marker)
      else MarkersKept(old(disk.files), disk.files)
    ensures outcome.Failed? && !dryRun && backup ==>
      Recovers(base, old(disk.files), disk.files, outcome.commands, runtimeDir, profile, marker, replaced)
  {
    ghost var before := disk.files;
    MarkersKeptAtFirst(before);
    NothingAttempted(services.log, Operations(profile.services, restart));
    var desired := PlannedDropins(sha, etc, profile.dropins);
    base, plan, replaced := Baseline(map[], {}), DropinPlan(map[], [], []), false;
    if OneLine(sha) { RefusalReasons(sha, etc, runtimeDir, profile, disk.files); }
    if !Accepts(sha, etc, runtimeDir, profile, disk.files) {
      return Refused, base, plan, false;
    }
    PathOrder();
    var owned := OwnedDropins(sha, etc, disk.files, desired).value;
    var thePlan := DropinPlan(desired, order, Sorted(PathLess, owned));
    plan := thePlan;
    PlanIsValid(sha, etc, disk.files, thePlan, owned);
    var taken := TakeBaseline(disk.files, Tracked(runtimeDir, profile, thePlan));
    base := taken;
    TrackedIsPlain(sha, etc, runtimeDir, profile, thePlan, disk.files);
    BaselineIsSafe(disk.files, taken);
    TrackedContains(runtimeDir, profile, thePlan, taken);
    ghost var promise := Promise(taken, if backup then taken.before.Keys else {});
    AcceptedSources(sha, etc, runtimeDir, profile, disk.files);
    hide Accepts, IsBadName, IsBadFile, IsBadService, IsBadDropin, Tracked, OwnedDropins, PlannedDropins, Complete,
      InPlace, Recoverable, Safe, MarkersKept, VerifiedBackups, Recovers, LosesSource, Continues, Operations,
      SparesMarkerName, NoMarkerBackup;
    assert promise.Holds(disk.files);
    var earlier := |services.log|;
    var ok;
    ok, replaced := ApplySteps(promise, disk, services, etc, runtimeDir, profile, thePlan, marker,
                               dryRun, restart, backup, timestamp);
    if ok { return Applied, base, plan, replaced; }
    if dryRun { return Failed([], []), base, plan, replaced; }
    var commands, _ := ReportPartialApply(taken, disk);
    outcome := Failed(commands, services.log[earlier..]);
    LogGrows(old(services.log), services.log, Operations(profile.services, restart));
    if backup {
      ApplyIsRecovered(promise, disk.files, Path(runtimeDir, MARKER_NAME), replaced);
      FailureRecovers(taken, before, disk.files, etc, runtimeDir, profile, thePlan, marker, replaced);
    }
  }

  lemma AcceptedSources(sha: Hash, etc: seq<string>, runtimeDir: seq<string>, profile: Profile, files: FileMap)
    requires Accepts(sha, etc, runtimeDir, profile, files)
    ensures DistinctNames(profile.Entries())
    ensures forall e | e in profile.Entries() :: e.0 != MARKER_NAME && IsRegular(files, e.1)
  {
    hide OwnedDropins, PlannedDropins, UnitName;
  }

  lemma LogGrows(before: seq<Attempt>, now: seq<Attempt>, operations: seq<Operation>)
    requires Continues(before, now, operations)
    ensures |before| <= |now| && now == before + now[|before|..]
  {
    hide Operations;
  }

  /** What the reported commands bring back: every tracked path but a renamed marker; that one if
      and only if it was absent, had the new content, or was backed up by this run.  Unless a
      listed file is named like a backup of the marker, there is no such backup, and the marker
      comes back if and only if it was absent or had the new content. */
  ghost predicate Recovers(base: Baseline, before: FileMap, now: FileMap, commands: seq<Command>,
                           runtimeDir: seq<string>, profile: Profile, marker: string, replaced: bool) {
    var markerPath, after := Path(runtimeDir, MARKER_NAME), RunAll(commands, now);
    var restored := FingerprintOf(after, markerPath) == FingerprintOf(before, markerPath);
    && (forall p | p in base.before && p != markerPath :: FingerprintOf(after, p) == FingerprintOf(before, p))
    && markerPath in base.before
    && (restored <==> (
      || !replaced || MarkerIsSafe(before, markerPath, marker)
      || VerifiedBackups(base, now, markerPath) != {}))
    && (SparesMarkerName(profile) ==> (restored <==> !replaced || MarkerIsSafe(before, markerPath, marker)))
    && (forall s | s !in base.before :: FingerprintOf(after, s) == FingerprintOf(now, s))
  }

  lemma FailureRecovers(base: Baseline, before: FileMap, now: FileMap, etc: seq<string>, runtimeDir: seq<string>,
                        profile: Profile, plan: DropinPlan, marker: string, replaced: bool)
    requires base.Of(before) && Path(runtimeDir, MARKER_NAME) in base.before && PlainlyTracked(base, now)
    requires forall p | p in base.before && (p != Path(runtimeDir, MARKER_NAME) || !replaced) ::
      Recoverable(base, now, p)
    requires replaced ==> Complete(before, now, etc, runtimeDir, profile, plan, marker)
    requires replaced && SparesMarkerName(profile) ==> NoMarkerBackup(before, now, runtimeDir)
    ensures Recovers(base, before, now, RecoveryCommands(base, now), runtimeDir, profile, marker, replaced)
  {
    hide Complete, Recoverable, SparesMarkerName, MarkerIsSafe, RecoveryCommands, RunAll;
    var markerPath := Path(runtimeDir, MARKER_NAME);
    RecoveryRestores(base, now);
    if replaced {
      MarkerRecovers(base, before, now, etc, runtimeDir, profile, plan, marker);
      if SparesMarkerName(profile) {
        assert VerifiedBackups(base, now, markerPath) == {};
      }
    }
  }
}
