/** report_partial_apply of script/apply_device_profile.py: the file commands printed after
    an interrupted apply, and what running them in order does. */
module ProfileRecovery {
  import opened Ordering
  import opened Files

  /** file_fingerprint, with SHA-256 taken to be injective: equal digests are equal contents. */
  datatype Fingerprint = Absent | Link(target: string) | NonRegular | File(mode: nat, digest: string)

  function FingerprintOf(files: FileMap, p: Path): Fingerprint {
    if p !in files then Absent else
      match files[p]
      case Regular(mode, content) => File(mode, content)
      case Symlink(target, _) => Link(target)
      case Other => NonRegular
  }

  /** What apply_profile records before it changes anything. */
  datatype Baseline = Baseline(before: map<Path, Fingerprint>, oldBackups: set<Path>) {
    ghost predicate Of(files: FileMap) {
      && (forall p | p in before :: before[p] == FingerprintOf(files, p))
      && oldBackups == set s | s in files && exists p :: p in before && IsBackupOf(s, p)
    }
  }

  datatype Command = CopyPreserving(from: Path, to: Path) | Remove(target: Path)

  /** `cp -p` and `rm` on regular files; a command whose file is missing does nothing. */
  function Run(command: Command, files: FileMap): FileMap {
    match command
    case CopyPreserving(from, to) => if from in files then files[to := files[from]] else files
    case Remove(target) => files - {target}
  }

  function RunAll(commands: seq<Command>, files: FileMap): FileMap {
    if commands == [] then files else RunAll(commands[1..], Run(commands[0], files))
  }

  // ----- the report -------------------------------------------------------------------

  function NewBackups(base: Baseline, files: FileMap, p: Path): set<Path> {
    set s | s in files && IsBackupOf(s, p) && s !in base.oldBackups
  }

  /** New backups whose fingerprint is the original one of `p`. */
  function VerifiedBackups(base: Baseline, files: FileMap, p: Path): set<Path>
    requires p in base.before
  {
    set s | s in NewBackups(base, files, p) && base.before[p] != Absent && FingerprintOf(files, s) == base.before[p]
  }

  ghost function CommandsFor(base: Baseline, files: FileMap, p: Path): seq<Command>
    requires p in base.before
  {
    PathOrder();
    var valid := Sorted(PathLess, VerifiedBackups(base, files, p));
    if FingerprintOf(files, p) == base.before[p] then []
    else if valid != [] then [CopyPreserving(valid[0], p)]
    else if base.before[p] == Absent then [Remove(p)]
    else []
  }

  ghost function CommandsForAll(base: Baseline, files: FileMap, paths: seq<Path>): seq<Command>
    requires forall p | p in paths :: p in base.before
  {
    if paths == [] then [] else CommandsFor(base, files, paths[0]) + CommandsForAll(base, files, paths[1..])
  }

  ghost function RecoveryCommands(base: Baseline, files: FileMap): seq<Command> {
    PathOrder();
    CommandsForAll(base, files, Sorted(PathLess, base.before.Keys))
  }

  /** A backup made since, with what the path held before. */
  predicate IsSaved(base: Baseline, files: FileMap, p: Path, s: Path)
    requires p in base.before
  {
    && s in files && IsBackupOf(s, p) && s !in base.oldBackups
    && match base.before[p]
       case File(mode, digest) => files[s] == Regular(mode, digest)
       case Link(target) => files[s].Symlink? && files[s].target == target
       case NonRegular => files[s].Other?
       case Absent => false
  }

  /** Nothing for a path that is as it was; else the first backup made since is copied back, or, if
      there is none, a path that did not exist is removed, and any other left to manual work. */
  lemma CommandsMean(base: Baseline, files: FileMap, p: Path)
    requires p in base.before
    ensures var commands := CommandsFor(base, files, p);
      && (FingerprintOf(files, p) == base.before[p] ==> commands == [])
      && (FingerprintOf(files, p) != base.before[p] ==> (
        && (forall s | IsSaved(base, files, p, s) && (forall t | IsSaved(base, files, p, t) ::
            t == s || PathLess(s, t)) :: commands == [CopyPreserving(s, p)])
        && ((forall s :: !IsSaved(base, files, p, s)) ==>
            commands == if base.before[p] == Absent then [Remove(p)] else [])))
  {
    SavedAre(base, files, p);
    hide PathLess, VerifiedBackups, IsSaved, FingerprintOf;
    PathOrder();
    var valid := Sorted(PathLess, VerifiedBackups(base, files, p));
    forall s | IsSaved(base, files, p, s) && (forall t | IsSaved(base, files, p, t) :: t == s || PathLess(s, t))
      ensures valid[0] == s
    {
      var k :| 0 <= k < |valid| && valid[k] == s;
      assert valid[0] in valid;
      if k > 0 { assert PathLess(valid[0], valid[k]); }
    }
    if valid != [] { assert valid[0] in valid; }
  }

  lemma SavedAre(base: Baseline, files: FileMap, p: Path)
    requires p in base.before
    ensures forall s :: s in VerifiedBackups(base, files, p) <==> IsSaved(base, files, p, s)
    ensures FingerprintOf(files, p) == Absent <==> p !in files
  {
  }

  /** One turn of the report: the commands for `p`, or a call for manual recovery. */
  method ReportPath(base: Baseline, files: FileMap, p: Path) returns (commands: seq<Command>, manual: bool)
    requires p in base.before
    ensures commands == CommandsFor(base, files, p)
    ensures manual <==> !Recoverable(base, files, p)
  {
    commands, manual := [], false;
    VerifiedMeansRecoverable(base, files, p);
    var valid := Sorted(PathLess, VerifiedBackups(base, files, p));
    if FingerprintOf(files, p) != base.before[p] {
      if valid != [] {
        commands := [CopyPreserving(valid[0], p)];
      } else if base.before[p] == Absent {
        commands := [Remove(p)];
      } else {
        manual := true;
      }
    }
  }

  /** The loop over sorted(before.items()); `manual` collects the paths that are reported
      as having no verified backup. */
  method ReportPaths(base: Baseline, files: FileMap, order: seq<Path>)
    returns (commands: seq<Command>, manual: set<Path>)
    requires forall p | p in order :: p in base.before
    ensures commands == CommandsForAll(base, files, order)
    ensures forall p :: p in manual <==> p in order && !Recoverable(base, files, p)
  {
    hide Recoverable, CommandsFor;
    commands, manual := [], {};
    for i := 0 to |order|
      invariant commands + CommandsForAll(base, files, order[i..]) == CommandsForAll(base, files, order)
      invariant forall p :: p in manual <==> p in order[..i] && !Recoverable(base, files, p)
    {
      assert order[i..][0] == order[i] && order[i..][1..] == order[i + 1..];
      assert order[..i + 1] == order[..i] + [order[i]];
      var mine, byHand := ReportPath(base, files, order[i]);
      commands := commands + mine;
      if byHand {
        manual := manual + {order[i]};
      }
    }
    assert order[|order|..] == [] && order[..|order|] == order;
  }

  method ReportPartialApply(base: Baseline, disk: Disk) returns (commands: seq<Command>, manual: set<Path>)
    ensures commands == RecoveryCommands(base, disk.files)
    ensures forall p :: p in manual <==> p in base.before && !Recoverable(base, disk.files, p)
  {
    PathOrder();
    commands, manual := ReportPaths(base, disk.files, Sorted(PathLess, base.before.Keys));
  }

  // ----- what recovery achieves ---------------------------------------------------------

  /** `p` is untouched, or was absent before, or has a new backup that verifies. */
  ghost predicate Recoverable(base: Baseline, files: FileMap, p: Path)
    requires p in base.before
  {
    || FingerprintOf(files, p) == base.before[p]
    || base.before[p] == Absent
    || exists s :: s in VerifiedBackups(base, files, p)
  }

  lemma VerifiedMeansRecoverable(base: Baseline, files: FileMap, p: Path)
    requires p in base.before
    ensures StrictTotalOrder(PathLess)
    ensures Recoverable(base, files, p) <==>
      (FingerprintOf(files, p) == base.before[p] || base.before[p] == Absent
        || Sorted(PathLess, VerifiedBackups(base, files, p)) != [])
  {
    PathOrder();
    var valid := Sorted(PathLess, VerifiedBackups(base, files, p));
    assert valid != [] ==> valid[0] in VerifiedBackups(base, files, p);
  }

  /** Tracked paths hold regular files or nothing (validate_profile refuses the rest). */
  predicate PlainlyTracked(base: Baseline, files: FileMap) {
    && (forall p | p in base.before :: base.before[p].Absent? || base.before[p].File?)
    && (forall p | p in base.before && p in files :: files[p].Regular?)
  }

  /** Every file that sorts after `p` is as it was in `files`. */
  ghost predicate LaterKept(files: FileMap, now: FileMap, p: Path) {
    forall s | PathLess(p, s) && s in files :: s in now && now[s] == files[s]
  }

  lemma CommandsForShape(base: Baseline, files: FileMap, p: Path)
    requires p in base.before && PlainlyTracked(base, files)
    ensures var commands := CommandsFor(base, files, p);
      || (commands == [] && (FingerprintOf(files, p) == base.before[p] <==> Recoverable(base, files, p)))
      || (commands == [Remove(p)] && base.before[p] == Absent)
      || (|commands| == 1 && commands[0].CopyPreserving? && commands[0].to == p
          && PathLess(p, commands[0].from) && p != commands[0].from
          && commands[0].from in files && FingerprintOf(files, commands[0].from) == base.before[p]
          && Recoverable(base, files, p))
  {
    VerifiedMeansRecoverable(base, files, p);
    var commands := CommandsFor(base, files, p);
    if commands != [] && commands[0].CopyPreserving? {
      var s := commands[0].from;
      assert s in VerifiedBackups(base, files, p);
      BackupComesLater(s, p);
    }
  }

  lemma RunOne(commands: seq<Command>, files: FileMap)
    ensures commands == [] ==> RunAll(commands, files) == files
    ensures |commands| == 1 ==> RunAll(commands, files) == Run(commands[0], files)
  {
  }

  /** The commands for one path change that path only; the path ends as it was before exactly
      when it was recoverable. */
  lemma OnePathRecovers(base: Baseline, files: FileMap, now: FileMap, p: Path)
    requires p in base.before && PlainlyTracked(base, files)
    requires FingerprintOf(now, p) == FingerprintOf(files, p) && LaterKept(files, now, p)
    ensures var after := RunAll(CommandsFor(base, files, p), now);
      && (forall s | s != p ::
        FingerprintOf(after, s) == FingerprintOf(now, s) && (s in now ==> s in after && after[s] == now[s]))
      && (FingerprintOf(after, p) == base.before[p] <==> Recoverable(base, files, p))
  {
    hide CommandsFor, RunAll, PathLess, VerifiedBackups;
    CommandsForShape(base, files, p);
    RunOne(CommandsFor(base, files, p), now);
  }

  lemma {:induction false} RunAllAppends(a: seq<Command>, b: seq<Command>, files: FileMap)
    ensures RunAll(a + b, files) == RunAll(b, RunAll(a, files))
  {
    if a == [] {
      assert a + b == b;
    } else {
      assert (a + b)[1..] == a[1..] + b;
      RunAllAppends(a[1..], b, Run(a[0], files));
    }
  }

  /** The commands for a sorted run of paths.  A backup sorts after the file it saves, so no
      earlier command has touched it when it is copied back. */
  lemma {:induction false} RunRecovers(base: Baseline, files: FileMap, now: FileMap, paths: seq<Path>)
    requires Increasing(PathLess, paths) && PlainlyTracked(base, files)
    requires forall p | p in paths :: p in base.before
    requires forall p | p in paths :: FingerprintOf(now, p) == FingerprintOf(files, p)
    requires paths != [] ==> LaterKept(files, now, paths[0])
    ensures var after := RunAll(CommandsForAll(base, files, paths), now);
      && (forall p | p in paths :: FingerprintOf(after, p) == base.before[p] <==> Recoverable(base, files, p))
      && (forall s | s !in paths :: FingerprintOf(after, s) == FingerprintOf(now, s))
    decreases |paths|
  {
    if paths != [] {
      hide CommandsFor, FingerprintOf, Recoverable, PathLess, RunAll, PlainlyTracked;
      var p, rest := paths[0], paths[1..];
      PathOrder();
      assert p in paths;
      OnePathRecovers(base, files, now, p);
      var next := RunAll(CommandsFor(base, files, p), now);
      RunAllAppends(CommandsFor(base, files, p), CommandsForAll(base, files, rest), now);
      assert forall q | q in rest :: q in paths && PathLess(p, q);
      if rest != [] {
        assert rest[0] == paths[1] && PathLess(p, rest[0]);
        assert forall s | PathLess(rest[0], s) :: PathLess(p, s) && s != p;
        assert LaterKept(files, next, rest[0]);
      }
      RunRecovers(base, files, next, rest);
      assert forall q | q in paths :: q == p || q in rest;
    } else {
      RunOne([], now);
    }
  }

  /** Running the reported commands returns a tracked path to its original bytes and mode, or
      to absence, if and only if the path is recoverable; nothing else changes. */
  lemma RecoveryRestores(base: Baseline, files: FileMap)
    requires PlainlyTracked(base, files)
    ensures var after := RunAll(RecoveryCommands(base, files), files);
      && (forall p | p in base.before :: FingerprintOf(after, p) == base.before[p] <==> Recoverable(base, files, p))
      && (forall s | s !in base.before :: FingerprintOf(after, s) == FingerprintOf(files, s))
  {
    PathOrder();
    RunRecovers(base, files, files, Sorted(PathLess, base.before.Keys));
  }

  /** Why the marker is the exception: it is written without a backup, so a fault after its
      rename leaves it changed, and the reported commands do not bring it back. */
  lemma ReplacedMarkerIsLost(marker: Path, mode: nat, was: string, now: string)
    requires was != now
    ensures var base := Baseline(map[marker := File(mode, was)], {});
      var before, files: FileMap := map[marker := Regular(mode, was)], map[marker := Regular(mode, now)];
      && base.Of(before)
      && FingerprintOf(RunAll(RecoveryCommands(base, files), files), marker) != FingerprintOf(before, marker)
  {
    var base := Baseline(map[marker := File(mode, was)], {});
    var before, files: FileMap := map[marker := Regular(mode, was)], map[marker := Regular(mode, now)];
    forall s | s in before && IsBackupOf(s, marker)
      ensures false
    {
      BackupComesLater(s, marker);
    }
    assert VerifiedBackups(base, files, marker) == {};
    RecoveryRestores(base, files);
  }

  // ----- what keeps paths recoverable ------------------------------------------------------

  /** The invariant of an apply with backups: recorded backups stay, every path of `paths` is
      recoverable, and tracked paths are plain files. */
  ghost predicate Safe(base: Baseline, files: FileMap, paths: set<Path>) {
    && base.oldBackups <= files.Keys
    && (forall s | s in base.oldBackups :: exists q :: IsBackupOf(s, q))
    && paths <= base.before.Keys
    && (forall p | p in paths :: Recoverable(base, files, p))
    && PlainlyTracked(base, files)
  }

  /** Creating or filling a regular file at a free name keeps every path recoverable. */
  lemma DisturbingIsSafe(base: Baseline, paths: set<Path>, files: FileMap, after: FileMap, t: Path)
    requires Safe(base, files, paths) && Disturbed(files, after, t)
    ensures Safe(base, after, paths)
    ensures forall p | p in base.before :: VerifiedBackups(base, files, p) <= VerifiedBackups(base, after, p)
  {
    assert forall s | s in files :: s in after && after[s] == files[s] by {
      assert forall s | s in files :: s in after - {t};
    }
    assert forall s | s in after && s != t :: s in files by {
      assert forall s | s in after && s != t :: s in after - {t};
    }
    forall p | p in base.before
      ensures VerifiedBackups(base, files, p) <= VerifiedBackups(base, after, p)
    {
      KeptBackups(base, files, after, p);
    }
    assert forall p | p in paths && Recoverable(base, files, p) :: Recoverable(base, after, p);
  }

  /** A verified backup that is still there keeps its path recoverable. */
  lemma KeptBackups(base: Baseline, files: FileMap, after: FileMap, p: Path)
    requires p in base.before
    requires forall s | s in files && IsBackupOf(s, p) :: s in after && after[s] == files[s]
    ensures VerifiedBackups(base, files, p) <= VerifiedBackups(base, after, p)
  {
  }

  /** `saved` holds a copy of `p` and was not there when the baseline was taken. */
  ghost predicate HoldsCopy(base: Baseline, files: FileMap, saved: Path, p: Path) {
    && IsRegular(files, saved) && IsRegular(files, p) && files[saved] == files[p]
    && IsBackupOf(saved, p) && saved !in base.oldBackups
  }

  /** A backed-up file may be replaced or removed: its own path gets the backup if it was still
      original, and any path that relied on this file as a backup can rely on the copy. */
  lemma ChangeAfterBackup(base: Baseline, paths: set<Path>, files: FileMap, after: FileMap, p: Path, saved: Path)
    requires Safe(base, files, paths) && HoldsCopy(base, files, saved, p)
    requires p in base.oldBackups ==> p in after
    requires after - {p} == files - {p} && (p in after ==> after[p].Regular?)
    ensures Safe(base, after, paths)
    ensures p in base.before && Recoverable(base, files, p) ==> Recoverable(base, after, p)
  {
    BackupComesLater(saved, p);
    SameElsewhere(files, after, p);
    forall q | q in base.before && Recoverable(base, files, q)
      ensures Recoverable(base, after, q)
    {
      if q == p {
        if FingerprintOf(files, p) == base.before[p] {
          assert saved in VerifiedBackups(base, after, p);
        } else {
          forall s | s in VerifiedBackups(base, files, p)
            ensures s in VerifiedBackups(base, after, p)
          {
            BackupComesLater(s, p);
          }
        }
      } else {
        forall s | s in VerifiedBackups(base, files, q)
          ensures exists s' :: s' in VerifiedBackups(base, after, q)
        {
          if s == p {
            BackupChain(q, p, saved);
            assert saved in VerifiedBackups(base, after, q);
          } else {
            assert s in VerifiedBackups(base, after, q);
          }
        }
      }
    }
  }

  /** Without backups only the plain shape of tracked paths is kept. */
  lemma ChangeUnprotected(base: Baseline, files: FileMap, after: FileMap, p: Path)
    requires Safe(base, files, {}) && after - {p} == files - {p} && (p in after ==> after[p].Regular?)
    requires p in base.oldBackups ==> p in after
    ensures Safe(base, after, {})
  {
    SameElsewhere(files, after, p);
  }

  /** `p` may be changed: it was absent before, or a verified backup of it exists. */
  ghost predicate Covered(base: Baseline, files: FileMap, p: Path)
    requires p in base.before
  {
    base.before[p] == Absent || exists s :: s in VerifiedBackups(base, files, p)
  }

  /** Changing a path whose name is no backup name endangers only that path. */
  lemma ChangeOutsideBackups(base: Baseline, paths: set<Path>, files: FileMap, after: FileMap, p: Path)
    requires Safe(base, files, paths)
    requires forall q :: !IsBackupOf(p, q)
    requires after - {p} == files - {p} && (p in after ==> after[p].Regular?)
    ensures Safe(base, after, paths - {p})
    ensures forall q | q in base.before :: VerifiedBackups(base, files, q) <= VerifiedBackups(base, after, q)
    ensures (p in paths ==> Covered(base, files, p)) ==> Safe(base, after, paths)
  {
    SameElsewhere(files, after, p);
    forall q | q in base.before
      ensures VerifiedBackups(base, files, q) <= VerifiedBackups(base, after, q)
    {
      KeptBackups(base, files, after, q);
    }
    assert base.oldBackups <= after.Keys;
    assert forall q | q in paths && q != p && Recoverable(base, files, q) :: Recoverable(base, after, q);
  }

  /** A fresh copy of a recoverable file makes it safe to change that file. */
  lemma BackupCovers(base: Baseline, files: FileMap, after: FileMap, p: Path, saved: Path)
    requires p in base.before && Recoverable(base, files, p) && p in files
    requires saved !in files && saved !in base.oldBackups && IsBackupOf(saved, p)
    requires after == files[saved := files[p]]
    ensures Covered(base, after, p)
  {
    if FingerprintOf(files, p) == base.before[p] {
      assert saved in VerifiedBackups(base, after, p);
    } else {
      KeptBackups(base, files, after, p);
    }
  }
}
