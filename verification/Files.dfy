/** The part of a file system the profile and script tools touch: paths, nodes, and the
    primitive operations, each of which may fail at any call.  A primitive that fails
    leaves the files as they were, except that a failing write leaves a partial file. */
module Files {
  import opened Ordering

  datatype Path = Path(dir: seq<string>, name: string) {
    function Parts(): seq<string> { dir + [name] }
  }

  /** The order of `sorted` on paths: part by part. */
  predicate PathLess(p: Path, q: Path) { PartsLess(p.Parts(), q.Parts()) }

  lemma PathOrder()
    ensures StrictTotalOrder(PathLess)
  {
    PartsOrder();
    forall p: Path, q: Path
      ensures p == q || PathLess(p, q) || PathLess(q, p)
    {
      if p.Parts() == q.Parts() {
        assert p.dir == p.Parts()[..|p.dir|] && p.name == p.Parts()[|p.dir|];
        assert q.dir == q.Parts()[..|q.dir|] && q.name == q.Parts()[|q.dir|];
      }
    }
  }

  /** `resolves` tells whether the target of a symbolic link exists. */
  datatype Node = Regular(mode: nat, content: string) | Symlink(target: string, resolves: bool) | Other

  type FileMap = map<Path, Node>

  /** Path.exists: follows links. */
  predicate Exists(files: FileMap, p: Path) {
    p in files && (files[p].Symlink? ==> files[p].resolves)
  }

  predicate IsRegular(files: FileMap, p: Path) {
    p in files && files[p].Regular?
  }

  const DEFAULT_MODE: nat := 420  // 0o644

  /** The owner may read and write, all others may read. */
  lemma DefaultModeIs()
    ensures DEFAULT_MODE / 64 == 6 && DEFAULT_MODE / 8 % 8 == 4 && DEFAULT_MODE % 8 == 4
  {
  }

  // ----- backup and temporary names ----------------------------------------------------

  /** What the glob `<name>.bak.*` beside `p` matches. */
  predicate IsBackupOf(saved: Path, p: Path) {
    saved.dir == p.dir && p.name + ".bak." <= saved.name
  }

  /** The k-th name tried by backup_path and next_backup_path. */
  function BackupCandidate(p: Path, timestamp: string, k: nat): (candidate: Path)
    ensures IsBackupOf(candidate, p)
  {
    var stem := p.name + ".bak." + timestamp;
    var name := if k == 0 then stem else stem + "." + Decimal(k);
    assert p.name + ".bak." == name[..|p.name + ".bak."|];
    Path(p.dir, name)
  }

  predicate IsTemporaryOf(t: Path, p: Path) {
    t.dir == p.dir && "." + p.name + "." <= t.name
  }

  function TemporaryCandidate(p: Path, k: nat): (candidate: Path)
    ensures IsTemporaryOf(candidate, p)
  {
    var stem := "." + p.name + ".";
    assert stem == (stem + Decimal(k) + ".tmp")[..|stem|];
    Path(p.dir, stem + Decimal(k) + ".tmp")
  }

  /** The names in the order in which they are tried. */
  lemma NamesTried(dir: seq<string>, name: string, timestamp: string, k: nat)
    requires k > 0
    ensures BackupCandidate(Path(dir, name), timestamp, 0) == Path(dir, name + ".bak." + timestamp)
    ensures BackupCandidate(Path(dir, name), timestamp, k)
      == Path(dir, name + ".bak." + timestamp + "." + Decimal(k))
    ensures BackupCandidate(Path(dir, name), timestamp, 1) == Path(dir, name + ".bak." + timestamp + ".1")
    ensures TemporaryCandidate(Path(dir, name), k) == Path(dir, "." + name + "." + Decimal(k) + ".tmp")
  {
    DecimalIs(0, 1);
  }

  /** What is taken for a backup, and for a temporary, of a path. */
  lemma NamesMatch(p: Path, q: Path)
    ensures IsBackupOf(q, p) <==> exists rest :: q == Path(p.dir, p.name + ".bak." + rest)
    ensures IsTemporaryOf(q, p) <==> exists rest :: q == Path(p.dir, "." + p.name + "." + rest)
  {
    if IsBackupOf(q, p) {
      assert q == Path(p.dir, p.name + ".bak." + q.name[|p.name| + 5..]);
    }
    if IsTemporaryOf(q, p) {
      assert q == Path(p.dir, "." + p.name + "." + q.name[|p.name| + 2..]);
    }
  }

  lemma BackupsAreDistinct(p: Path, timestamp: string, j: nat, k: nat)
    requires BackupCandidate(p, timestamp, j) == BackupCandidate(p, timestamp, k)
    ensures j == k
  {
    var stem := p.name + ".bak." + timestamp;
    var a, b := BackupCandidate(p, timestamp, j).name, BackupCandidate(p, timestamp, k).name;
    if j != 0 && k != 0 {
      assert Decimal(j) == a[|stem + "."|..] && Decimal(k) == b[|stem + "."|..];
      DecimalInjective(j, k);
    }
  }

  lemma TemporariesAreDistinct(p: Path, j: nat, k: nat)
    requires TemporaryCandidate(p, j) == TemporaryCandidate(p, k)
    ensures j == k
  {
    var stem := "." + p.name + ".";
    var a, b := TemporaryCandidate(p, j).name, TemporaryCandidate(p, k).name;
    assert |Decimal(j)| == |Decimal(k)|;
    assert Decimal(j) == a[|stem|..|stem| + |Decimal(j)|] && Decimal(k) == b[|stem|..|stem| + |Decimal(k)|];
    DecimalInjective(j, k);
  }

  /** A backup of a backup is a backup of the original name. */
  lemma BackupChain(a: Path, b: Path, c: Path)
    requires IsBackupOf(b, a) && IsBackupOf(c, b)
    ensures IsBackupOf(c, a)
  {
  }

  /** Backups sort after the file they were made from. */
  lemma BackupComesLater(saved: Path, p: Path)
    requires IsBackupOf(saved, p)
    ensures PathLess(p, saved) && p != saved
  {
    assert p.name == saved.name[..|p.name|];
    PrefixFirst(CharLess, p.name, saved.name);
    LastDecides(StringLess, p.dir, p.name, saved.name);
  }

  // ----- the disk ---------------------------------------------------------------------

  class Disk {
    var files: FileMap
    /** Primitive operations that failed although nothing was in their way. */
    ghost var faults: nat

    constructor (files: FileMap)
      ensures this.files == files && faults == 0
    {
      this.files, faults := files, 0;
    }

    /** A step that changes no tracked file: mkdir, a probe, reading a file. */
    method Step() returns (ok: bool)
      modifies this`faults
      ensures faults == old(faults) + if ok then 0 else 1
    {
      ok := *;
      faults := faults + if ok then 0 else 1;
    }

    /** open(path, "xb"): the new file gets the process's default mode. */
    method CreateExclusive(p: Path) returns (ok: bool)
      modifies this`files, this`faults
      ensures old(faults) <= faults && (ok <==> p !in old(files) && faults == old(faults))
      ensures ok ==> files - {p} == old(files) && IsRegular(files, p) && files[p].content == ""
      ensures !ok ==> files == old(files)
    {
      ok := Step();
      ok := ok && p !in files;
      if ok {
        var mode: nat := *;
        files := files[p := Regular(mode, "")];
      }
    }

    /** Write to a file that was just created or truncated; a fault leaves a prefix. */
    method Write(p: Path, data: string) returns (ok: bool)
      requires IsRegular(files, p)
      modifies this`files, this`faults
      ensures old(faults) <= faults && (ok <==> faults == old(faults))
      ensures ok ==> files == old(files)[p := Regular(old(files)[p].mode, data)]
      ensures !ok ==> exists part :: part <= data && files == old(files)[p := Regular(old(files)[p].mode, part)]
    {
      ok := Step();
      var part := data;
      if !ok {
        var length: nat :| length <= |data|;
        part := data[..length];
      }
      files := files[p := Regular(files[p].mode, part)];
    }

    method Chmod(p: Path, mode: nat) returns (ok: bool)
      requires IsRegular(files, p)
      modifies this`files, this`faults
      ensures old(faults) <= faults && (ok <==> faults == old(faults))
      ensures files == if ok then old(files)[p := Regular(mode, old(files)[p].content)] else old(files)
    {
      ok := Step();
      if ok { files := files[p := Regular(mode, files[p].content)]; }
    }

    /** os.replace: the name `from` goes away and `to` becomes that file, in one step. */
    method Replace(from: Path, to: Path) returns (ok: bool)
      modifies this`files, this`faults
      ensures old(faults) <= faults && (ok <==> from in old(files) && faults == old(faults))
      ensures files == if ok && from != to then old(files)[to := old(files)[from]] - {from} else old(files)
    {
      ok := Step();
      ok := ok && from in files;
      if ok && from != to { files := files[to := files[from]] - {from}; }
    }

    method Unlink(p: Path) returns (ok: bool)
      modifies this`files, this`faults
      ensures old(faults) <= faults && (ok <==> p in old(files) && faults == old(faults))
      ensures files == if ok then old(files) - {p} else old(files)
    {
      ok := Step();
      ok := ok && p in files;
      if ok { files := files - {p}; }
    }

    /** shutil.copy2 to a fresh name: contents first, then mode. */
    method CopyToFresh(from: Path, to: Path) returns (ok: bool)
      requires to !in files
      modifies this`files, this`faults
      ensures old(faults) <= faults && (ok <==> IsRegular(old(files), from) && faults == old(faults))
      ensures ok ==> files == old(files)[to := old(files)[from]]
      ensures !ok ==> Disturbed(old(files), files, to)
    {
      ok := Step();
      if !ok || !IsRegular(files, from) { return false; }
      ok := CreateExclusive(to);
      if ok { ok := Write(to, files[from].content); }
      if ok { ok := Chmod(to, files[from].mode); }
    }

    /** shutil.copy2 over a file or a free name; a fault leaves a partial copy.  A link at `to` is
        followed: it leads to `linked`, and that file is written. */
    method CopyOver(from: Path, to: Path, linked: Path) returns (ok: bool)
      modifies this`files, this`faults
      ensures old(faults) <= faults
      ensures var dest := Followed(old(files), to, linked);
        && (ok <==> Copyable(old(files), from, dest) && faults == old(faults))
        && SameBut(old(files), files, {dest}) && (dest in old(files) ==> dest in files)
        && (ok ==> files == old(files)[dest := old(files)[from]])
        && (dest in files ==> files[dest].Regular? || files == old(files))
    {
      ok := Step();
      var dest := Followed(files, to, linked);
      if !ok || !Copyable(files, from, dest) { return false; }
      var mode: nat := *;
      files := files[dest := Regular(mode, "")];
      ok := Write(dest, files[from].content);
      if ok { ok := Chmod(dest, files[from].mode); }
    }

    /** backup_path: the first free candidate; finitely many names are taken. */
    method FreshBackup(p: Path, timestamp: string) returns (saved: Path, ghost k: nat)
      ensures saved == BackupCandidate(p, timestamp, k) && saved !in files
      ensures forall j: nat | j < k :: BackupCandidate(p, timestamp, j) in files
    {
      saved, k := BackupCandidate(p, timestamp, 0), 0;
      var suffix: nat := 1;
      ghost var tried := {};
      while saved in files
        invariant suffix == k + 1 && saved == BackupCandidate(p, timestamp, k)
        invariant forall j: nat | j < k :: BackupCandidate(p, timestamp, j) in files
        invariant tried <= files.Keys && forall t | t in tried :: exists j: nat ::
          j < k && t == BackupCandidate(p, timestamp, j)
        decreases files.Keys - tried
      {
        if saved in tried {
          var j: nat :| j < k && saved == BackupCandidate(p, timestamp, j);
          BackupsAreDistinct(p, timestamp, j, k);
        }
        tried := tried + {saved};
        saved, k := BackupCandidate(p, timestamp, suffix), k + 1;
        suffix := suffix + 1;
      }
    }

    /** A temporary name that is not in use (uuid4 in the source). */
    method FreshTemporary(p: Path) returns (t: Path)
      ensures IsTemporaryOf(t, p) && t !in files && t != p
    {
      var k: nat := 0;
      t := TemporaryCandidate(p, 0);
      ghost var tried := {};
      while t in files
        invariant t == TemporaryCandidate(p, k)
        invariant tried <= files.Keys && forall u | u in tried :: exists j: nat ::
          j < k && u == TemporaryCandidate(p, j)
        decreases files.Keys - tried
      {
        if t in tried {
          var j: nat :| j < k && t == TemporaryCandidate(p, j);
          TemporariesAreDistinct(p, j, k);
        }
        tried := tried + {t};
        k := k + 1;
        t := TemporaryCandidate(p, k);
      }
    }
  }

  /** The file that is written through `p`, where a link there leads to `linked`. */
  function Followed(files: FileMap, p: Path, linked: Path): Path {
    if p in files && files[p].Symlink? then linked else p
  }

  /** Nothing but a fault keeps copy2 from writing the file `from` to `dest`. */
  predicate Copyable(files: FileMap, from: Path, dest: Path) {
    IsRegular(files, from) && from != dest && (dest in files ==> files[dest].Regular?)
  }

  /** Only the paths of `touched` may differ. */
  ghost predicate SameBut(before: FileMap, after: FileMap, touched: set<Path>) {
    forall p | p !in touched :: (p in before <==> p in after) && (p in before ==> after[p] == before[p])
  }

  /** `q` is a backup, made since `before`, of the file `p`. */
  ghost predicate FreshCopy(before: FileMap, after: FileMap, q: Path, p: Path) {
    p in before && q !in before && q in after && IsBackupOf(q, p) && after[q] == before[p]
  }

  lemma SameElsewhere(files: FileMap, after: FileMap, p: Path)
    requires after - {p} == files - {p}
    ensures SameBut(files, after, {p})
  {
    forall s | s != p
      ensures (s in files <==> s in after) && (s in files ==> after[s] == files[s])
    {
      assert s in files <==> s in files - {p};
      assert s in after <==> s in after - {p};
    }
  }

  /** Nothing changed except that the free name `p` may now hold a regular file. */
  ghost predicate Disturbed(before: FileMap, after: FileMap, p: Path) {
    p !in before && after - {p} == before && (p in after ==> after[p].Regular?)
  }

  /** atomic_content / install_default: fill a temporary beside `path`, then rename it.
      `replaced` tells whether the rename happened; a fault after it still reports failure. */
  method AtomicContent(disk: Disk, path: Path, data: string, mode: nat) returns (ok: bool, replaced: bool)
    modifies disk`files, disk`faults
    ensures old(disk.faults) <= disk.faults && (ok <==> disk.faults == old(disk.faults))
    ensures ok ==> replaced
    ensures replaced ==> disk.files == old(disk.files)[path := Regular(mode, data)]
    ensures !replaced ==> exists t :: IsTemporaryOf(t, path) && t != path && Disturbed(old(disk.files), disk.files, t)
  {
    ok := disk.Step();
    var t := disk.FreshTemporary(path);
    replaced := false;
    if !ok {
      assert Disturbed(old(disk.files), disk.files, t);
      return;
    }
    ok := disk.CreateExclusive(t);
    if ok { ok := disk.Write(t, data); }
    if ok { ok := disk.Chmod(t, mode); }
    if ok {
      ok := disk.Replace(t, path);
      replaced := ok;
      assert replaced ==> disk.files == old(disk.files)[path := Regular(mode, data)];
    }
    var probed := disk.Step();
    if probed && t in disk.files {
      probed := disk.Unlink(t);
    }
    assert !replaced ==> Disturbed(old(disk.files), disk.files, t);
    ok := ok && probed;
  }
}
