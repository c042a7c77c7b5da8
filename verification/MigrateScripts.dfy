/** script/migrate_runtime_scripts.py: refresh unchanged runtime scripts, keep user edits. */
module MigrateScripts {
  import opened Ordering
  import opened Files

  datatype Action = PreserveSymlink | Seed | Current | PreserveCustom | Migrate | Unreadable

  /** What a run is given: default directory, runtime directory, for every script name the
      contents whose digests the manifest lists (SHA-256 taken to be injective), and where a link
      left over at a script's temporary name would lead. */
  datatype Setup = Setup(defaultsDir: seq<string>, runtimeDir: seq<string>, legacy: map<string, set<string>>,
                         timestamp: string, pid: string, linked: string -> Path) {
    function Source(name: string): Path { Path(defaultsDir, name) }
    function Target(name: string): Path { Path(runtimeDir, name) }
    function Temporary(name: string): Path { Path(runtimeDir, "." + name + ".migrate." + pid) }

    /** No temporary name is the name of a script or of a backup the run could choose. */
    ghost predicate NamesApart(names: set<string>) {
      && (forall n, m | n in names && m in names :: Temporary(n) != Target(m))
      && (forall n, m, k: nat | n in names && m in names :: Temporary(n) != BackupCandidate(Target(m), timestamp, k))
    }
  }

  /** Hidden, beside the script, and of this process. */
  lemma TemporaryIs(setup: Setup, name: string)
    ensures var t := setup.Temporary(name);
      && t.dir == setup.runtimeDir && |t.name| == |name| + 10 + |setup.pid| && t.name[0] == '.'
      && t.name[1..|name| + 1] == name && t.name[|name| + 1..|name| + 10] == ".migrate."
      && t.name[|name| + 10..] == setup.pid
  {
  }

  /** The branch taken for one script. */
  function Decide(setup: Setup, files: FileMap, name: string): Action {
    var source, target := setup.Source(name), setup.Target(name);
    if target in files && files[target].Symlink? then PreserveSymlink
    else if target !in files then Seed
    else if files[target].Other? || !IsRegular(files, source) then Unreadable
    else if files[target].content == files[source].content then Current
    else if name !in setup.legacy || files[target].content !in setup.legacy[name] then PreserveCustom
    else Migrate
  }

  /** A file that may be replaced: its content is not the default's and is listed for the script. */
  predicate Replaceable(setup: Setup, files: FileMap, name: string) {
    var source, target := setup.Source(name), setup.Target(name);
    && IsRegular(files, target) && IsRegular(files, source) && files[target].content != files[source].content
    && name in setup.legacy && files[target].content in setup.legacy[name]
  }

  /** Nothing is left to do for the script. */
  predicate Settled(setup: Setup, files: FileMap, name: string) {
    Decide(setup, files, name) in {PreserveSymlink, Current, PreserveCustom}
  }

  /** What stands at a script's place, in the tool's own words: it holds the default's content. */
  predicate HoldsDefault(setup: Setup, files: FileMap, name: string) {
    && IsRegular(files, setup.Source(name)) && IsRegular(files, setup.Target(name))
    && files[setup.Target(name)].content == files[setup.Source(name)].content
  }

  /** Its content is neither the default's nor that of an earlier default. */
  predicate IsCustom(setup: Setup, files: FileMap, name: string) {
    && IsRegular(files, setup.Source(name)) && IsRegular(files, setup.Target(name))
    && files[setup.Target(name)].content != files[setup.Source(name)].content
    && forall listed | name in setup.legacy && listed in setup.legacy[name] ::
      files[setup.Target(name)].content != listed
  }

  /** Each action has its own reason. */
  lemma ReasonsOf(setup: Setup, files: FileMap, name: string)
    ensures var action, target := Decide(setup, files, name), setup.Target(name);
      && (action == PreserveSymlink <==> target in files && files[target].Symlink?)
      && (action == Seed <==> target !in files)
      && (action == Current <==> HoldsDefault(setup, files, name))
      && (action == PreserveCustom <==> IsCustom(setup, files, name))
      && (action == Migrate <==> Replaceable(setup, files, name))
  {
  }

  /** A script is settled if and only if a link or a file is there that may not be replaced. */
  lemma SettledMeans(setup: Setup, files: FileMap, name: string)
    ensures Settled(setup, files, name) <==> (
      var target := setup.Target(name);
      && target in files
      && (files[target].Regular? ==> IsRegular(files, setup.Source(name)) && !Replaceable(setup, files, name))
      && files[target] != Other)
  {
  }

  /** The names of the default scripts, in order. */
  function DefaultNames(setup: Setup, files: FileMap): (names: seq<string>)
    ensures Increasing(StringLess, names)
    ensures forall name :: name in names <==> IsRegular(files, setup.Source(name))
  {
    StringOrder();
    assert forall name | IsRegular(files, setup.Source(name)) :: setup.Source(name).name == name;
    Sorted(StringLess, set p | p in files && p.dir == setup.defaultsDir && files[p].Regular? :: p.name)
  }

  // ----- installing one script ----------------------------------------------------------------------

  /** What copying the default to the temporary and renaming it makes of the files. */
  function Installed(files: FileMap, source: Path, target: Path, temporary: Path, linked: Path): FileMap
    requires source in files
  {
    var copied := files[Followed(files, temporary, linked) := files[source]];
    if temporary in copied then copied[target := copied[temporary]] - {temporary} else copied
  }

  /** install_default: copy to a temporary beside the target, rename, drop the temporary.  Only the
      target, the temporary and the file that a link at the temporary leads to can change, and
      without such a link the target changes at once or not at all. */
  method InstallDefault(disk: Disk, source: Path, target: Path, temporary: Path, linked: Path) returns (ok: bool)
    requires temporary != target
    modifies disk`files, disk`faults
    ensures old(disk.faults) <= disk.faults
    ensures ok <==> (
      && Copyable(old(disk.files), source, Followed(old(disk.files), temporary, linked))
      && disk.faults == old(disk.faults))
    ensures ok ==> disk.files == Installed(old(disk.files), source, target, temporary, linked)
    ensures SameBut(old(disk.files), disk.files, {target, temporary, Followed(old(disk.files), temporary, linked)})
    ensures CleanInstall(old(disk.files), source, target, temporary) ==>
      Installs(old(disk.files), disk.files, source, target, temporary, ok)
  {
    ok := disk.CopyOver(source, temporary, linked);
    if ok {
      ok := disk.Replace(temporary, target);
    }
    if temporary in disk.files {
      var gone := disk.Unlink(temporary);
      ok := ok && gone;
    }
  }

  /** The temporary is a name of its own, and free or a plain file left over. */
  predicate CleanInstall(files: FileMap, source: Path, target: Path, temporary: Path) {
    && IsRegular(files, source) && temporary != target && temporary != source && source != target
    && (temporary in files ==> files[temporary].Regular?)
  }

  /** From a clean start only the target and the temporary change, and the target at once. */
  ghost predicate Installs(before: FileMap, after: FileMap, source: Path, target: Path, temporary: Path, ok: bool)
    requires source in before
  {
    && SameBut(before, after, {target, temporary})
    && (SameBut(before, after, {temporary}) || (target in after && after[target] == before[source]))
    && (ok ==> target in after && after[target] == before[source] && temporary !in after)
    && (temporary in after ==> after[temporary].Regular?)
  }

  /** A completed install puts the default at the target if and only if no link was left over at
      the temporary; otherwise that link becomes the script and the default is written into the
      file it leads to. */
  lemma LinkDecides(files: FileMap, source: Path, target: Path, temporary: Path, linked: Path)
    requires temporary != target && Copyable(files, source, Followed(files, temporary, linked))
    ensures var after := Installed(files, source, target, temporary, linked);
      && target in after
      && (after[target] == files[source] <==> !(temporary in files && files[temporary].Symlink?))
      && (temporary in files && files[temporary].Symlink? ==> (
        && after[target] == files[temporary]
        && (linked != target ==> linked in after && after[linked] == files[source])))
  {
  }

  /** A backup this run made of the script's old content. */
  ghost predicate SavedBy(setup: Setup, names: seq<string>, before: FileMap, after: FileMap, name: string, q: Path) {
    && FreshCopy(before, after, q, setup.Target(name))
    && exists m, k: nat :: m in names && q == BackupCandidate(setup.Target(m), setup.timestamp, k)
  }

  /** The state of a run that has handled names[..i]. */
  ghost predicate Progress(setup: Setup, names: seq<string>, before: FileMap, now: FileMap, i: nat, backup: bool)
    requires i <= |names|
  {
    && Intact(setup, names, before, now, backup)
    && (forall m | m in names[..i] :: Settled(setup, now, m))
    && Pending(setup, before, now, names[i..])
    && (forall p | p in before && p !in now :: exists m :: m in names && p == setup.Temporary(m))
  }

  /** What also holds when the run is cut short. */
  ghost predicate Intact(setup: Setup, names: seq<string>, before: FileMap, now: FileMap, backup: bool) {
    && DefaultsKept(setup, names, before, now) && Unharmed(setup, names, before, now, backup)
    && (forall m | m in names && setup.Temporary(m) in now :: now[setup.Temporary(m)].Regular?)
    && Confined(setup, before, now)
  }

  ghost predicate DefaultsKept(setup: Setup, names: seq<string>, before: FileMap, now: FileMap) {
    forall m | m in names :: IsRegular(before, setup.Source(m)) && IsRegular(now, setup.Source(m))
      && now[setup.Source(m)] == before[setup.Source(m)]
  }

  /** Only the runtime directory changes, if it is not the directory of the defaults, and new files
      are plain files. */
  ghost predicate Confined(setup: Setup, before: FileMap, now: FileMap) {
    && (setup.defaultsDir == setup.runtimeDir ==> now == before)
    && (forall p: Path | p.dir != setup.runtimeDir ::
          (p in before <==> p in now) && (p in before ==> now[p] == before[p]))
    && (forall p | p in now && p !in before :: now[p].Regular?)
  }

  lemma ConfinedOn(setup: Setup, before: FileMap, now: FileMap, after: FileMap, touched: set<Path>)
    requires Confined(setup, before, now) && SameBut(now, after, touched)
    requires setup.defaultsDir != setup.runtimeDir
    requires forall p | p in touched :: p.dir == setup.runtimeDir && (p in after ==> after[p].Regular?)
    ensures Confined(setup, before, after)
  {
  }

  ghost predicate Pending(setup: Setup, before: FileMap, now: FileMap, names: seq<string>) {
    forall m | m in names && setup.Target(m) in before ::
      setup.Target(m) in now && now[setup.Target(m)] == before[setup.Target(m)]
  }

  /** What was at a script's place is as it was, or it was a file with another content than the
      default's that is listed for the script; with backups that file is then saved. */
  ghost predicate Unharmed(setup: Setup, names: seq<string>, before: FileMap, now: FileMap, backup: bool) {
    forall m | m in names && setup.Target(m) in before ::
      || (setup.Target(m) in now && now[setup.Target(m)] == before[setup.Target(m)])
      || (Replaceable(setup, before, m) && (backup ==> exists q :: SavedBy(setup, names, before, now, m, q)))
  }

  /** Decide looks at the script's source and target only. */
  lemma DecideDepends(setup: Setup, before: FileMap, now: FileMap, name: string)
    requires forall p | p in {setup.Source(name), setup.Target(name)} ::
      (p in before <==> p in now) && (p in before ==> now[p] == before[p])
    ensures Decide(setup, now, name) == Decide(setup, before, name)
  {
  }

  /** A backup was made: everything known so far still holds, and the script is saved. */
  lemma AfterBackup(setup: Setup, names: seq<string>, before: FileMap, now: FileMap,
                    after: FileMap, i: nat, q: Path, k: nat)
    requires i < |names| && Progress(setup, names, before, now, i, true)
    requires q == BackupCandidate(setup.Target(names[i]), setup.timestamp, k) && Disturbed(now, after, q)
    requires setup.Target(names[i]) in now && setup.defaultsDir != setup.runtimeDir
    requires setup.NamesApart(set m | m in names)
    ensures Progress(setup, names, before, after, i, true)
  {
    SameElsewhere(now, after, q);
    ConfinedOn(setup, before, now, after, {q});
    forall m | m in names[..i]
      ensures Settled(setup, after, m)
    {
      DecideDepends(setup, now, after, m);
    }
    forall m | m in names && setup.Target(m) in before && exists r :: SavedBy(setup, names, before, now, m, r)
      ensures exists r :: SavedBy(setup, names, before, after, m, r)
    {
      var r :| SavedBy(setup, names, before, now, m, r);
      assert SavedBy(setup, names, before, after, m, r);
    }
  }

  /** The effect of install_default on the script `name`, whose old node is in `q` if saved. */
  ghost predicate InstallEffect(setup: Setup, names: seq<string>, before: FileMap, now: FileMap, after: FileMap,
                                name: string, backup: bool, q: Path) {
    var source, target, temporary := setup.Source(name), setup.Target(name), setup.Temporary(name);
    && source != target && source in now && Decide(setup, now, name) in {Seed, Migrate}
    && SameBut(now, after, {target, temporary}) && (temporary in after ==> after[temporary].Regular?)
    && (SameBut(now, after, {temporary}) || (target in after && after[target] == now[source]))
    && (backup && target in now ==> SavedAs(setup, before, now, target, q))
  }

  ghost predicate SavedAs(setup: Setup, before: FileMap, now: FileMap, target: Path, q: Path) {
    && target in now && q in now && q !in before && now[q] == now[target]
    && exists k: nat :: q == BackupCandidate(target, setup.timestamp, k)
  }

  lemma InstallHarmsNobody(setup: Setup, names: seq<string>, before: FileMap, now: FileMap, after: FileMap,
                           i: nat, backup: bool, q: Path)
    requires i < |names| && Progress(setup, names, before, now, i, backup) && setup.NamesApart(set m | m in names)
    requires InstallEffect(setup, names, before, now, after, names[i], backup, q)
    ensures Unharmed(setup, names, before, after, backup)
  {
    var n, target := names[i], setup.Target(names[i]);
    forall m | m in names && setup.Target(m) in before
      ensures (setup.Target(m) in after && after[setup.Target(m)] == before[setup.Target(m)])
        || (Replaceable(setup, before, m) && (backup ==> exists r :: SavedBy(setup, names, before, after, m, r)))
    {
      if m == n {
        assert n in names[i..];
        DecideDepends(setup, before, now, n);
        if backup {
          BackupComesLater(q, target);
          assert SavedBy(setup, names, before, after, m, q);
        }
      } else if !(setup.Target(m) in now && now[setup.Target(m)] == before[setup.Target(m)]) && backup {
        var r :| SavedBy(setup, names, before, now, m, r);
        if r == target {
          BackupComesLater(q, target);
          BackupChain(setup.Target(m), target, q);
          assert SavedBy(setup, names, before, after, m, q);
        } else {
          assert SavedBy(setup, names, before, after, m, r);
        }
      }
    }
  }

  /** Once the new content is in place the script is settled and the run goes on. */
  lemma AfterInstall(setup: Setup, names: seq<string>, before: FileMap, now: FileMap, after: FileMap,
                     i: nat, backup: bool, q: Path)
    requires i < |names| && Progress(setup, names, before, now, i, backup) && setup.NamesApart(set m | m in names)
    requires Increasing(StringLess, names) && StrictTotalOrder(StringLess)
    requires InstallEffect(setup, names, before, now, after, names[i], backup, q)
    requires setup.Target(names[i]) in after && after[setup.Target(names[i])] == now[setup.Source(names[i])]
    ensures Progress(setup, names, before, after, i + 1, backup)
  {
    var n := names[i];
    InstallHarmsNobody(setup, names, before, now, after, i, backup, q);
    NamesDiffer(names, i);
    assert names[..i + 1] == names[..i] + [n] && n in names;
    SourcesKept(setup, names, before, now, after, i, backup, q);
    InstallIsConfined(setup, names, before, now, after, i, backup, q);
    forall m | m in names[..i + 1]
      ensures Settled(setup, after, m)
    {
      if m != n {
        assert m in names[..i];
        DecideDepends(setup, now, after, m);
      }
    }
    assert forall m | m in names[i + 1..] :: m in names[i..] && m != n;
  }

  lemma InstallIsConfined(setup: Setup, names: seq<string>, before: FileMap, now: FileMap, after: FileMap,
                          i: nat, backup: bool, q: Path)
    requires i < |names| && Progress(setup, names, before, now, i, backup)
    requires InstallEffect(setup, names, before, now, after, names[i], backup, q)
    ensures Confined(setup, before, after)
  {
    assert names[i] in names;
    ConfinedOn(setup, before, now, after, {setup.Target(names[i]), setup.Temporary(names[i])});
  }

  lemma SourcesKept(setup: Setup, names: seq<string>, before: FileMap, now: FileMap, after: FileMap,
                    i: nat, backup: bool, q: Path)
    requires i < |names| && Progress(setup, names, before, now, i, backup) && setup.NamesApart(set m | m in names)
    requires InstallEffect(setup, names, before, now, after, names[i], backup, q)
    ensures forall m | m in names :: setup.Source(m) in after && after[setup.Source(m)] == now[setup.Source(m)]
  {
  }

  lemma NamesDiffer(names: seq<string>, i: nat)
    requires i < |names| && Increasing(StringLess, names) && StrictTotalOrder(StringLess)
    ensures forall m | m in names[..i] || m in names[i + 1..] :: m != names[i]
  {
  }

  /** A settled script needs nothing. */
  lemma AfterNothing(setup: Setup, names: seq<string>, before: FileMap, now: FileMap, i: nat, backup: bool)
    requires i < |names| && Progress(setup, names, before, now, i, backup) && Settled(setup, now, names[i])
    ensures Progress(setup, names, before, now, i + 1, backup)
  {
  }

  /** The branch taken on arrival is the one the initial files call for, unless the script was
      missing then. */
  lemma ArrivesUnchanged(setup: Setup, names: seq<string>, before: FileMap, now: FileMap, i: nat, backup: bool)
    requires i < |names| && Progress(setup, names, before, now, i, backup)
    ensures setup.Target(names[i]) in before ==> Decide(setup, now, names[i]) == Decide(setup, before, names[i])
    ensures Decide(setup, now, names[i]) == Unreadable <==> Decide(setup, before, names[i]) == Unreadable
  {
  }

  // ----- one script -------------------------------------------------------------------------------

  /** What a completed turn makes of the files, whatever they are. */
  ghost predicate Handled(setup: Setup, now: FileMap, after: FileMap, name: string, backup: bool) {
    var action, target := Decide(setup, now, name), setup.Target(name);
    if action == Seed || (action == Migrate && !backup) then InstalledFrom(setup, now, after, name)
    else if action == Migrate then
      exists k: nat :: FirstFree(setup, now, target, k)
        && InstalledFrom(setup, now[BackupCandidate(target, setup.timestamp, k) := now[target]], after, name)
    else action != Unreadable && after == now
  }

  ghost predicate FirstFree(setup: Setup, files: FileMap, target: Path, k: nat) {
    && BackupCandidate(target, setup.timestamp, k) !in files
    && forall j: nat | j < k :: BackupCandidate(target, setup.timestamp, j) in files
  }

  ghost predicate InstalledFrom(setup: Setup, files: FileMap, after: FileMap, name: string) {
    && Copyable(files, setup.Source(name), Followed(files, setup.Temporary(name), setup.linked(name)))
    && after == Installed(files, setup.Source(name), setup.Target(name), setup.Temporary(name), setup.linked(name))
  }

  lemma TemporaryIsNoTarget(setup: Setup, name: string)
    ensures setup.Temporary(name) != setup.Target(name)
  {
    assert |setup.Temporary(name).name| > |name|;
  }

  /** The branch of seeding or migrating one script: save the old node, then install.  `clean`
      tells whether nothing is in the way of the temporaries. */
  method InstallScript(disk: Disk, setup: Setup, ghost names: seq<string>, name: string,
                       ghost before: FileMap, ghost i: nat, backup: bool, ghost clean: bool)
    returns (ok: bool)
    requires i < |names| && name == names[i]
    requires clean ==> Progress(setup, names, before, disk.files, i, backup) && setup.NamesApart(set m | m in names)
    requires Increasing(StringLess, names) && StrictTotalOrder(StringLess)
    requires Decide(setup, disk.files, name) in {Seed, Migrate}
    modifies disk`files, disk`faults
    ensures old(disk.faults) <= disk.faults && (ok ==> disk.faults == old(disk.faults))
    ensures clean && disk.faults == old(disk.faults) ==> ok
    ensures clean && ok ==> Progress(setup, names, before, disk.files, i + 1, backup)
    ensures clean ==> Intact(setup, names, before, disk.files, backup)
    ensures ok ==> Handled(setup, old(disk.files), disk.files, name, backup)
  {
    hide Progress, Intact, StringLess, Increasing, StrictTotalOrder, InstallEffect, Decide, Installed,
      Installs, CleanInstall, SavedAs, Handled, FirstFree, InstalledFrom, BackupCandidate;
    var source, target, temporary := setup.Source(name), setup.Target(name), setup.Temporary(name);
    ghost var arrival := disk.files;
    ghost var q, k := target, 0;
    DecisionMeans(setup, arrival, name);
    TemporaryIsNoTarget(setup, name);
    var saves := Decide(setup, disk.files, name) == Migrate && backup;
    if saves {
      var saved;
      saved, k := disk.FreshBackup(target, setup.timestamp);
      IsFirstFree(setup, arrival, target, k);
      ok := disk.CopyToFresh(target, saved);
      if clean {
        NotThereBefore(setup, names, before, arrival, i, saved, k, backup);
        DirectoriesDiffer(setup, names, before, arrival, i, backup);
        AfterBackup(setup, names, before, arrival, disk.files, i, saved, k);
        ProgressIsIntact(setup, names, before, disk.files, i, backup);
      }
      if !ok { return; }
      if clean { SavedNow(setup, before, arrival, disk.files, names, i, saved, k); }
      q := saved;
    }
    ghost var now := disk.files;
    if clean { InstallStarts(setup, names, before, now, i, backup, setup.linked(name)); }
    ok := InstallDefault(disk, source, target, temporary, setup.linked(name));
    if ok { InstalledIsHandled(setup, arrival, now, disk.files, name, backup, k); }
    if clean {
      InstallIsEffect(setup, names, before, now, disk.files, i, backup, q, ok);
      InstallIsIntact(setup, names, before, now, disk.files, i, backup, q);
      if ok {
        InstalledIsThere(now, disk.files, source, target, temporary);
        AfterInstall(setup, names, before, now, disk.files, i, backup, q);
      }
    }
  }

  lemma IsFirstFree(setup: Setup, files: FileMap, target: Path, k: nat)
    requires BackupCandidate(target, setup.timestamp, k) !in files
    requires forall j: nat | j < k :: BackupCandidate(target, setup.timestamp, j) in files
    ensures FirstFree(setup, files, target, k)
  {
  }

  lemma InstalledIsHandled(setup: Setup, arrival: FileMap, now: FileMap, after: FileMap, name: string, backup: bool,
                           k: nat)
    requires Decide(setup, arrival, name) in {Seed, Migrate}
    requires if Decide(setup, arrival, name) == Migrate && backup
      then setup.Target(name) in arrival && FirstFree(setup, arrival, setup.Target(name), k)
        && now == arrival[BackupCandidate(setup.Target(name), setup.timestamp, k) := arrival[setup.Target(name)]]
      else now == arrival
    requires Copyable(now, setup.Source(name), Followed(now, setup.Temporary(name), setup.linked(name)))
    requires after == Installed(now, setup.Source(name), setup.Target(name), setup.Temporary(name), setup.linked(name))
    ensures Handled(setup, arrival, after, name, backup)
  {
    hide Decide, FirstFree, Installed, BackupCandidate;
    assert InstalledFrom(setup, now, after, name);
  }

  lemma DecisionMeans(setup: Setup, files: FileMap, name: string)
    ensures Decide(setup, files, name) == Seed <==> setup.Target(name) !in files
    ensures Decide(setup, files, name) == Migrate <==> (
      Replaceable(setup, files, name) && setup.Source(name) in files)
    ensures Decide(setup, files, name) == Migrate ==> IsRegular(files, setup.Target(name))
  {
  }

  /** Where the defaults are the scripts themselves, nothing is seeded or migrated. */
  lemma DirectoriesDiffer(setup: Setup, names: seq<string>, before: FileMap, now: FileMap, i: nat, backup: bool)
    requires i < |names| && Progress(setup, names, before, now, i, backup)
    requires Decide(setup, now, names[i]) in {Seed, Migrate}
    ensures setup.defaultsDir != setup.runtimeDir
  {
    assert names[i] in names;
  }

  /** The backup holds the old node, and the decision stands. */
  lemma SavedNow(setup: Setup, before: FileMap, arrival: FileMap, now: FileMap, names: seq<string>,
                 i: nat, saved: Path, k: nat)
    requires i < |names| && Decide(setup, arrival, names[i]) == Migrate
    requires saved == BackupCandidate(setup.Target(names[i]), setup.timestamp, k)
      && saved !in arrival && saved !in before
    requires setup.Target(names[i]) in arrival && now == arrival[saved := arrival[setup.Target(names[i])]]
    ensures Decide(setup, now, names[i]) == Migrate && SavedAs(setup, before, now, setup.Target(names[i]), saved)
  {
    BackupComesLater(saved, setup.Target(names[i]));
    DecideDepends(setup, arrival, now, names[i]);
  }

  lemma InstallStarts(setup: Setup, names: seq<string>, before: FileMap, now: FileMap, i: nat, backup: bool,
                      linked: Path)
    requires i < |names| && Progress(setup, names, before, now, i, backup) && setup.NamesApart(set m | m in names)
    requires Decide(setup, now, names[i]) in {Seed, Migrate}
    ensures var source, target, temporary := setup.Source(names[i]), setup.Target(names[i]), setup.Temporary(names[i]);
      CleanInstall(now, source, target, temporary) && Copyable(now, source, Followed(now, temporary, linked))
  {
    DirectoriesDiffer(setup, names, before, now, i, backup);
    assert names[i] in names && names[i] in set m | m in names;
  }

  lemma InstallIsEffect(setup: Setup, names: seq<string>, before: FileMap, now: FileMap, after: FileMap, i: nat,
                        backup: bool, q: Path, ok: bool)
    requires i < |names| && CleanInstall(now, setup.Source(names[i]), setup.Target(names[i]), setup.Temporary(names[i]))
    requires Installs(now, after, setup.Source(names[i]), setup.Target(names[i]), setup.Temporary(names[i]), ok)
    requires Decide(setup, now, names[i]) in {Seed, Migrate}
    requires backup && setup.Target(names[i]) in now ==> SavedAs(setup, before, now, setup.Target(names[i]), q)
    ensures InstallEffect(setup, names, before, now, after, names[i], backup, q)
  {
    hide Decide, SavedAs;
  }

  lemma InstallIsIntact(setup: Setup, names: seq<string>, before: FileMap, now: FileMap, after: FileMap,
                        i: nat, backup: bool, q: Path)
    requires i < |names| && Progress(setup, names, before, now, i, backup) && setup.NamesApart(set m | m in names)
    requires InstallEffect(setup, names, before, now, after, names[i], backup, q)
    ensures Intact(setup, names, before, after, backup)
  {
    InstallHarmsNobody(setup, names, before, now, after, i, backup, q);
    SourcesKept(setup, names, before, now, after, i, backup, q);
    InstallIsConfined(setup, names, before, now, after, i, backup, q);
    TemporariesStayPlain(setup, names, before, now, after, i, backup, q);
    hide Decide, Unharmed, Confined;
  }

  lemma TemporariesStayPlain(setup: Setup, names: seq<string>, before: FileMap, now: FileMap, after: FileMap,
                             i: nat, backup: bool, q: Path)
    requires i < |names| && Progress(setup, names, before, now, i, backup) && setup.NamesApart(set m | m in names)
    requires InstallEffect(setup, names, before, now, after, names[i], backup, q)
    ensures forall m | m in names && setup.Temporary(m) in after :: after[setup.Temporary(m)].Regular?
  {
    hide Decide, Unharmed, Confined, SavedAs;
    assert names[i] in set m | m in names;
  }

  lemma InstalledIsThere(now: FileMap, after: FileMap, source: Path, target: Path, temporary: Path)
    requires source in now && Installs(now, after, source, target, temporary, true)
    ensures target in after && after[target] == now[source]
  {
  }

  lemma NotThereBefore(setup: Setup, names: seq<string>, before: FileMap, now: FileMap, i: nat,
                       q: Path, k: nat, backup: bool)
    requires i < |names| && Progress(setup, names, before, now, i, backup) && setup.NamesApart(set m | m in names)
    requires q == BackupCandidate(setup.Target(names[i]), setup.timestamp, k) && q !in now
    ensures q !in before
  {
  }

  lemma ProgressIsIntact(setup: Setup, names: seq<string>, before: FileMap, now: FileMap, i: nat, backup: bool)
    requires i <= |names| && Progress(setup, names, before, now, i, backup)
    ensures Intact(setup, names, before, now, backup)
  {
  }

  // ----- the whole run ------------------------------------------------------------------------------

  /** What the returned actions say: the branch taken for every script, which is the branch the
      initial files call for unless the script was missing then. */
  ghost predicate Reports(setup: Setup, before: FileMap, names: seq<string>,
                          actions: map<string, Action>, dryRun: bool) {
    forall m | m in names ::
      m in actions && (dryRun || setup.Target(m) in before ==> actions[m] == Decide(setup, before, m))
  }

  lemma ReportsNext(setup: Setup, before: FileMap, names: seq<string>, i: nat, actions: map<string, Action>,
                    action: Action, dryRun: bool)
    requires i < |names| && Reports(setup, before, names[..i], actions, dryRun)
    requires dryRun || setup.Target(names[i]) in before ==> action == Decide(setup, before, names[i])
    ensures Reports(setup, before, names[..i + 1], actions[names[i] := action], dryRun)
  {
  }

  /** Nothing is in the way of the temporaries: no script or possible backup has the name of one,
      and what is left over at such a name is a plain file. */
  ghost predicate CleanTemporaries(setup: Setup, files: FileMap, names: seq<string>) {
    && setup.NamesApart(set m | m in names)
    && forall m | m in names && setup.Temporary(m) in files :: files[setup.Temporary(m)].Regular?
  }

  ghost predicate AllSettled(setup: Setup, files: FileMap, names: seq<string>) {
    forall m | m in names :: Settled(setup, files, m)
  }

  /** The manifest lists default scripts only, and no script of the run is a directory. */
  predicate Workable(setup: Setup, files: FileMap, names: seq<string>) {
    && (forall m | m in setup.legacy :: IsRegular(files, setup.Source(m)))
    && forall m | m in names :: Decide(setup, files, m) != Unreadable
  }

  /** The files between the turns of a completed run. */
  ghost predicate Trace(setup: Setup, names: seq<string>, states: seq<FileMap>, backup: bool) {
    |states| == |names| + 1
    && forall i | 0 <= i < |names| :: Handled(setup, states[i], states[i + 1], names[i], backup)
  }

  lemma TraceGrows(setup: Setup, names: seq<string>, states: seq<FileMap>, i: nat, after: FileMap, backup: bool)
    requires i < |names| && Trace(setup, names[..i], states, backup)
    requires Handled(setup, states[i], after, names[i], backup)
    ensures Trace(setup, names[..i + 1], states + [after], backup)
  {
    hide Handled;
  }

  /** The invariant of the loop over the scripts; `known` tells whether a dry run, settled scripts
      or clean temporaries make the branches those the initial files call for. */
  ghost predicate Running(setup: Setup, names: seq<string>, before: FileMap, now: FileMap, i: nat, dryRun: bool,
                          backup: bool, clean: bool, quiet: bool, states: seq<FileMap>, actions: map<string, Action>)
    requires i <= |names|
  {
    && (dryRun || quiet ==> now == before)
    && (dryRun || quiet || clean ==>
      Reports(setup, before, names[..i], actions, dryRun) && NoneUnreadable(setup, before, names[..i]))
    && (clean && !dryRun ==> Progress(setup, names, before, now, i, backup))
    && (!dryRun ==> Trace(setup, names[..i], states, backup) && states[0] == before && states[i] == now)
  }

  ghost predicate NoneUnreadable(setup: Setup, before: FileMap, names: seq<string>) {
    forall m | m in names :: Decide(setup, before, m) != Unreadable
  }

  lemma RunStarts(setup: Setup, names: seq<string>, files: FileMap, dryRun: bool, backup: bool,
                  clean: bool, quiet: bool)
    requires names == DefaultNames(setup, files) && (clean ==> CleanTemporaries(setup, files, names))
    ensures Running(setup, names, files, files, 0, dryRun, backup, clean, quiet, [files], map[])
    ensures clean ==> Intact(setup, names, files, files, backup)
  {
    hide DefaultNames, Decide;
  }

  /** One turn of the loop, for a script that was found readable. */
  method MigrateScript(disk: Disk, setup: Setup, ghost names: seq<string>, name: string, ghost before: FileMap,
                       ghost i: nat, dryRun: bool, backup: bool, ghost clean: bool, ghost quiet: bool,
                       ghost states: seq<FileMap>, actions: map<string, Action>)
    returns (ok: bool, action: Action, ghost states': seq<FileMap>)
    requires i < |names| && name == names[i] && Increasing(StringLess, names) && StrictTotalOrder(StringLess)
    requires clean ==> CleanTemporaries(setup, before, names) && Intact(setup, names, before, disk.files, backup)
    requires quiet ==> AllSettled(setup, before, names)
    requires Running(setup, names, before, disk.files, i, dryRun, backup, clean, quiet, states, actions)
    modifies disk`files, disk`faults
    ensures old(disk.faults) <= disk.faults && (ok ==> disk.faults == old(disk.faults))
    ensures (dryRun || quiet || clean) && disk.faults == old(disk.faults) ==>
      (ok <==> Decide(setup, before, name) != Unreadable)
    ensures dryRun || quiet ==> disk.files == before
    ensures clean ==> Intact(setup, names, before, disk.files, backup)
    ensures ok ==> Running(setup, names, before, disk.files, i + 1, dryRun, backup, clean, quiet, states',
      actions[name := action])
  {
    hide Progress, Intact, Reports, Trace, Handled, StringLess, Increasing, StrictTotalOrder, Decide, AllSettled,
      NoneUnreadable, CleanTemporaries, Running;
    action, states' := Decide(setup, disk.files, name), states;
    ghost var arrival := disk.files;
    TurnStarts(setup, names, before, arrival, i, dryRun, backup, clean, quiet, states, actions);
    ok := disk.Step();
    if !ok || action == Unreadable { return false, action, states; }
    if !dryRun {
      if action in {Seed, Migrate} {
        ok := InstallScript(disk, setup, names, name, before, i, backup, clean);
        if !ok { return; }
      } else {
        NothingIsHandled(setup, arrival, name, backup);
        if clean { AfterNothing(setup, names, before, arrival, i, backup); }
      }
      states' := states + [disk.files];
    }
    TurnEnds(setup, names, before, arrival, disk.files, i, dryRun, backup, clean, quiet, states, actions, action);
  }

  /** What a turn may rely on: the branch is the one the initial files call for. */
  lemma TurnStarts(setup: Setup, names: seq<string>, before: FileMap, now: FileMap, i: nat, dryRun: bool, backup: bool,
                   clean: bool, quiet: bool, states: seq<FileMap>, actions: map<string, Action>)
    requires i < |names| && Running(setup, names, before, now, i, dryRun, backup, clean, quiet, states, actions)
    requires clean ==> CleanTemporaries(setup, before, names)
    requires quiet ==> AllSettled(setup, before, names)
    ensures dryRun || quiet ==> now == before
    ensures dryRun || quiet || clean ==>
      (Decide(setup, now, names[i]) == Unreadable <==> Decide(setup, before, names[i]) == Unreadable)
    ensures dryRun || quiet || (clean && setup.Target(names[i]) in before) ==>
      Decide(setup, now, names[i]) == Decide(setup, before, names[i])
    ensures quiet ==> Decide(setup, now, names[i]) !in {Seed, Migrate, Unreadable}
    ensures clean && !dryRun ==>
      Progress(setup, names, before, now, i, backup) && setup.NamesApart(set m | m in names)
  {
    hide Decide, Progress, Reports, Trace;
    assert names[i] in names;
    if clean && !dryRun { ArrivesUnchanged(setup, names, before, now, i, backup); }
  }

  lemma TurnEnds(setup: Setup, names: seq<string>, before: FileMap, now: FileMap, after: FileMap, i: nat, dryRun: bool,
                 backup: bool, clean: bool, quiet: bool, states: seq<FileMap>, actions: map<string, Action>,
                 action: Action)
    requires i < |names| && Running(setup, names, before, now, i, dryRun, backup, clean, quiet, states, actions)
    requires dryRun || quiet ==> after == now == before
    requires dryRun || quiet || clean ==> Decide(setup, before, names[i]) != Unreadable
    requires dryRun || quiet || (clean && setup.Target(names[i]) in before) ==>
      action == Decide(setup, before, names[i])
    requires clean && !dryRun ==> Progress(setup, names, before, after, i + 1, backup)
    requires !dryRun ==> Handled(setup, now, after, names[i], backup)
    ensures Running(setup, names, before, after, i + 1, dryRun, backup, clean, quiet,
      if dryRun then states else states + [after], actions[names[i] := action])
  {
    hide Decide, Progress, Reports, Trace, Handled;
    assert names[..i + 1] == names[..i] + [names[i]];
    if dryRun || quiet || clean { ReportsNext(setup, before, names, i, actions, action, dryRun); }
    if !dryRun {
      TraceGrows(setup, names, states, i, after, backup);
      TraceLength(setup, names[..i], states, backup);
    }
  }

  lemma TraceLength(setup: Setup, names: seq<string>, states: seq<FileMap>, backup: bool)
    requires Trace(setup, names, states, backup)
    ensures |states| == |names| + 1
  {
  }

  lemma NothingIsHandled(setup: Setup, files: FileMap, name: string, backup: bool)
    requires Decide(setup, files, name) !in {Seed, Migrate, Unreadable}
    ensures Handled(setup, files, files, name, backup) && Settled(setup, files, name)
  {
  }

  /** The reported actions by what stood at the scripts' places before the run. */
  ghost predicate ReportedByReason(setup: Setup, before: FileMap, names: seq<string>,
                                   actions: map<string, Action>, dryRun: bool) {
    forall m | m in names :: (
      var target := setup.Target(m);
      && m in actions && (dryRun && target !in before ==> actions[m] == Seed)
      && (target in before ==> (
        && (actions[m] == PreserveSymlink <==> before[target].Symlink?)
        && (actions[m] == Current <==> HoldsDefault(setup, before, m))
        && (actions[m] == PreserveCustom <==> IsCustom(setup, before, m))
        && (actions[m] == Migrate <==> Replaceable(setup, before, m)))))
  }

  lemma ReportsMean(setup: Setup, before: FileMap, names: seq<string>, actions: map<string, Action>, dryRun: bool)
    requires Reports(setup, before, names, actions, dryRun)
    ensures ReportedByReason(setup, before, names, actions, dryRun)
  {
    hide Decide, HoldsDefault, IsCustom, Replaceable;
    forall m | m in names {
      ReasonsOf(setup, before, m);
    }
  }

  /** migrate_runtime_scripts.  A dry run and a run on settled scripts change nothing, and report
      the branch for every script; without faults a workable run completes.  When the temporaries
      are clean, every script is settled after a completed run; links and customised scripts are
      never altered, and with backups every script that was replaced is saved: also when the run is
      cut short.  Then the defaults and the files of other directories are as they were, and the
      temporaries are clean again.  `states` are the files between the turns of a completed run,
      whatever was left over. */
  method MigrateRuntimeScripts(disk: Disk, setup: Setup, dryRun: bool, backup: bool)
    returns (ok: bool, actions: map<string, Action>, ghost states: seq<FileMap>)
    modifies disk`files, disk`faults
    ensures old(disk.faults) <= disk.faults && (ok ==> disk.faults == old(disk.faults))
    ensures var names := DefaultNames(setup, old(disk.files));
      var quiet, clean := AllSettled(setup, old(disk.files), names), CleanTemporaries(setup, old(disk.files), names);
      && (dryRun || quiet ==> disk.files == old(disk.files))
      && (dryRun || quiet || clean ==> (
        && (ok <==> disk.faults == old(disk.faults) && Workable(setup, old(disk.files), names))
        && (ok ==> (
          && Reports(setup, old(disk.files), names, actions, dryRun)
          && ReportedByReason(setup, old(disk.files), names, actions, dryRun)))))
      && (ok && !dryRun ==>
        Trace(setup, names, states, backup) && states[0] == old(disk.files) && states[|names|] == disk.files)
      && (clean ==> (
        && (ok && !dryRun ==> AllSettled(setup, disk.files, names))
        && Unharmed(setup, names, old(disk.files), disk.files, backup) && Confined(setup, old(disk.files), disk.files)
        && DefaultNames(setup, disk.files) == names && DefaultsKept(setup, names, old(disk.files), disk.files)
        && CleanTemporaries(setup, disk.files, names)))
  {
    hide Decide, StringLess, Progress, Intact, Unharmed, Confined, DefaultsKept, Reports, ReportedByReason, Settled,
      Trace, Running, AllSettled, CleanTemporaries, DefaultNames, Increasing;
    StringOrder();
    ghost var before := disk.files;
    var names := DefaultNames(setup, disk.files);
    ghost var clean, quiet := CleanTemporaries(setup, before, names), AllSettled(setup, before, names);
    NamesAscend(setup, before);
    RunStarts(setup, names, before, dryRun, backup, clean, quiet);
    actions, states := map[], [before];
    if clean { IntactMeans(setup, names, before, before, backup); }
    ok := disk.Step();
    if !ok || !(forall m | m in setup.legacy :: IsRegular(disk.files, setup.Source(m))) {
      return false, actions, states;
    }
    if !dryRun {
      ok := disk.Step();
      if !ok { return; }
    }
    for i := 0 to |names|
      invariant disk.faults == old(disk.faults)
      invariant dryRun || quiet ==> disk.files == before
      invariant Running(setup, names, before, disk.files, i, dryRun, backup, clean, quiet, states, actions)
      invariant clean ==> Intact(setup, names, before, disk.files, backup)
    {
      var action;
      ok, action, states := MigrateScript(disk, setup, names, names[i], before, i, dryRun, backup, clean, quiet,
                                          states, actions);
      if clean { IntactMeans(setup, names, before, disk.files, backup); }
      if !ok { return; }
      actions := actions[names[i] := action];
    }
    RunEnds(setup, names, before, disk.files, dryRun, backup, clean, quiet, states, actions);
    if dryRun || quiet || clean { ReportsMean(setup, before, names, actions, dryRun); }
    if clean { IntactMeans(setup, names, before, disk.files, backup); }
    ok := true;
  }

  lemma NamesAscend(setup: Setup, files: FileMap)
    ensures Increasing(StringLess, DefaultNames(setup, files))
  {
  }

  lemma IntactMeans(setup: Setup, names: seq<string>, before: FileMap, now: FileMap, backup: bool)
    requires names == DefaultNames(setup, before) && CleanTemporaries(setup, before, names)
    requires Intact(setup, names, before, now, backup)
    ensures Unharmed(setup, names, before, now, backup) && Confined(setup, before, now)
    ensures DefaultNames(setup, now) == names && DefaultsKept(setup, names, before, now)
    ensures CleanTemporaries(setup, now, names)
  {
    hide Unharmed;
    forall name
      ensures IsRegular(now, setup.Source(name)) <==> IsRegular(before, setup.Source(name))
    {
    }
    StringOrder();
    hide StringLess;
    IncreasingUnique(StringLess, DefaultNames(setup, now), names);
  }

  lemma RunEnds(setup: Setup, names: seq<string>, before: FileMap, now: FileMap, dryRun: bool, backup: bool,
                clean: bool, quiet: bool, states: seq<FileMap>, actions: map<string, Action>)
    requires Running(setup, names, before, now, |names|, dryRun, backup, clean, quiet, states, actions)
    ensures dryRun || quiet || clean ==>
      Reports(setup, before, names, actions, dryRun) && NoneUnreadable(setup, before, names)
    ensures clean && !dryRun ==> AllSettled(setup, now, names)
    ensures !dryRun ==> Trace(setup, names, states, backup) && states[0] == before && states[|names|] == now
  {
    hide Decide, Reports, Trace, Settled, Intact;
    assert names[..|names|] == names;
  }

  /** The decisions depend on the directories and the manifest only. */
  lemma SameDecisions(setup: Setup, again: Setup, files: FileMap, names: seq<string>)
    requires again.defaultsDir == setup.defaultsDir && again.runtimeDir == setup.runtimeDir
    requires again.legacy == setup.legacy
    ensures DefaultNames(again, files) == DefaultNames(setup, files)
    ensures AllSettled(again, files, names) <==> AllSettled(setup, files, names)
    ensures Workable(again, files, names) <==> Workable(setup, files, names)
    ensures forall name :: Settled(again, files, name) <==> Settled(setup, files, name)
    ensures AllSettled(setup, files, names) ==> forall m | m in names :: setup.Target(m) in files
  {
    hide StringLess, Decide, DefaultNames;
    SameDecision(setup, again, files);
    SameNames(setup, again, files);
  }

  lemma SameDecision(setup: Setup, again: Setup, files: FileMap)
    requires again.defaultsDir == setup.defaultsDir && again.runtimeDir == setup.runtimeDir
    requires again.legacy == setup.legacy
    ensures forall name :: Decide(again, files, name) == Decide(setup, files, name)
    ensures forall name :: Settled(setup, files, name) ==> setup.Target(name) in files
  {
  }

  lemma SameNames(setup: Setup, again: Setup, files: FileMap)
    requires again.defaultsDir == setup.defaultsDir
    ensures DefaultNames(again, files) == DefaultNames(setup, files)
  {
    StringOrder();
    hide StringLess, StrictTotalOrder;
    assert forall name :: again.Source(name) == setup.Source(name);
    IncreasingUnique(StringLess, DefaultNames(again, files), DefaultNames(setup, files));
  }

  lemma StaysWorkable(setup: Setup, before: FileMap, now: FileMap, names: seq<string>)
    requires DefaultNames(setup, before) == names
    ensures DefaultNames(setup, now) == names && AllSettled(setup, now, names) && Workable(setup, before, names) ==>
      Workable(setup, now, names)
  {
    hide Decide;
    forall m: string {
      SettledIsReadable(setup, now, m);
    }
  }

  lemma SettledIsReadable(setup: Setup, files: FileMap, name: string)
    ensures Settled(setup, files, name) ==> Decide(setup, files, name) != Unreadable
  {
  }

  lemma QuietReports(setup: Setup, files: FileMap, names: seq<string>, actions: map<string, Action>, dryRun: bool)
    ensures AllSettled(setup, files, names) && Reports(setup, files, names, actions, dryRun) ==>
      forall m | m in names :: m in actions && actions[m] in {PreserveSymlink, Current, PreserveCustom}
  {
  }

  /** Two runs in a row, the second perhaps with another timestamp and other temporaries.  When the
      first one completes from clean temporaries, the second one changes nothing, reports only
      `current` and `preserve-*`, and completes unless a call fails. */
  method SecondRunIsQuiet(disk: Disk, setup: Setup, again: Setup, backup: bool, dryRun: bool, backupAgain: bool)
    returns (ok: bool, okAgain: bool, actions: map<string, Action>)
    requires again.defaultsDir == setup.defaultsDir && again.runtimeDir == setup.runtimeDir
    requires again.legacy == setup.legacy
    modifies disk`files, disk`faults
    ensures CleanTemporaries(setup, old(disk.files), DefaultNames(setup, old(disk.files))) ==>
      var names := DefaultNames(setup, old(disk.files));
      && (ok ==> AllSettled(setup, disk.files, names))
      && (ok && okAgain ==> forall m | m in names ::
            m in actions && actions[m] in {PreserveSymlink, Current, PreserveCustom})
      && (ok && okAgain <==> disk.faults == old(disk.faults) && Workable(setup, old(disk.files), names))
      && Unharmed(setup, names, old(disk.files), disk.files, backup)
  {
    hide Decide, DefaultNames, Settled, AllSettled, CleanTemporaries, Workable, Reports, Unharmed, Confined, Trace,
      DefaultsKept;
    okAgain, actions := false, map[];
    ghost var before, names := disk.files, DefaultNames(setup, disk.files);
    ghost var states;
    ok, actions, states := MigrateRuntimeScripts(disk, setup, false, backup);
    actions := map[];
    if ok {
      SameDecisions(setup, again, disk.files, names);
      StaysWorkable(setup, before, disk.files, names);
      ghost var settled := disk.files;
      okAgain, actions, states := MigrateRuntimeScripts(disk, again, dryRun, backupAgain);
      QuietReports(again, settled, names, actions, dryRun);
    }
  }

  lemma LinkIsInstalled(setup: Setup, before: FileMap, after: FileMap, name: string, backup: bool)
    requires setup.Target(name) !in before && Handled(setup, before, after, name, backup)
    requires setup.Temporary(name) in before && before[setup.Temporary(name)].Symlink? && setup.linked(name) in before
    ensures var source, target, custom := setup.Source(name), setup.Target(name), setup.linked(name);
      && source in before && custom in after && after[custom] == before[source]
      && target in after && after[target] == before[setup.Temporary(name)]
  {
    TemporaryIsNoTarget(setup, name);
    LinkDecides(before, setup.Source(name), setup.Target(name), setup.Temporary(name), setup.linked(name));
  }

  /** A link left over at the temporary of a missing script: a completed run overwrites the file it
      leads to, and the link becomes the script. */
  method LinkedTemporaryHarms(disk: Disk, setup: Setup, name: string, backup: bool) returns (ok: bool)
    requires DefaultNames(setup, disk.files) == [name] && setup.Target(name) !in disk.files
    requires setup.Temporary(name) in disk.files && disk.files[setup.Temporary(name)].Symlink?
    requires setup.linked(name) in disk.files
    modifies disk`files, disk`faults
    ensures ok ==> (
      var source, target, custom := setup.Source(name), setup.Target(name), setup.linked(name);
      && source in old(disk.files) && custom in disk.files && disk.files[custom] == old(disk.files)[source]
      && target in disk.files && disk.files[target] == old(disk.files)[setup.Temporary(name)])
  {
    ghost var before := disk.files;
    var actions;
    ghost var states;
    ok, actions, states := MigrateRuntimeScripts(disk, setup, false, backup);
    if ok { LinkIsInstalled(setup, before, states[1], name, backup); }
  }
}
