/** tools/buildroot_compliance_bundle.py: writing a staged directory as a normalized archive, and
    getting it back. */
module TarWrite {
  import opened Ordering
  import opened PosixPaths
  import opened TarExtract

  /** An entry of the staged directory; equal inodes are the same file. */
  datatype Entry = Folder | Plain(inode: nat, content: string) | Special

  /** Entries by their path relative to the staged directory. */
  type Staged = map<Parts, Entry>

  predicate IsFileName(part: string) { IsComponent(part) && part != ".." }

  ghost predicate IsDirectoryTree(staged: Staged) {
    && (forall p <- staged :: p != [] && forall part | part in p :: IsFileName(part))
    && (forall p <- staged, k | 1 <= k < |p| :: p[..k] in staged && staged[p[..k]].Folder?)
    && (forall p <- staged, q <- staged | staged[p].Plain? && staged[q].Plain? && staged[p].inode == staged[q].inode ::
          staged[p].content == staged[q].content)
  }

  function ArchiveName(path: Parts): string { BUNDLE_ROOT + "/" + Joined(path) }

  /** The file at k was already archived as the file at j. */
  ghost predicate SameFile(staged: Staged, paths: seq<Parts>, j: nat, k: nat)
    requires k < |paths| && forall p | p in paths :: p in staged
  {
    j < k && staged[paths[j]].Plain? && staged[paths[k]].Plain? && staged[paths[j]].inode == staged[paths[k]].inode
  }

  /** How the k-th path is archived: a file that was archived before becomes a link to it. */
  ghost predicate IsBody(body: Body, staged: Staged, paths: seq<Parts>, k: nat)
    requires k < |paths| && forall p | p in paths :: p in staged
  {
    match staged[paths[k]]
    case Folder => body == Directory(0)
    case Special => body == Unsupported(0)
    case Plain(_, content) =>
      if exists j: nat :: SameFile(staged, paths, j, k)
      then exists j: nat :: SameFile(staged, paths, j, k) && body == Link(0, ArchiveName(paths[j]))
      else body == File(content)
  }

  /** The root, and the first n paths in order. */
  ghost predicate Archived(members: seq<Member>, staged: Staged, paths: seq<Parts>, n: nat)
    requires n <= |paths| && forall p | p in paths :: p in staged
  {
    && |members| == n + 1 && members[0] == Member(BUNDLE_ROOT, Directory(0))
    && forall m, k | 0 <= k < n && m == k + 1 ::
      members[m].name == ArchiveName(paths[k]) && IsBody(members[m].body, staged, paths, k)
  }

  ghost predicate IsArchive(members: seq<Member>, staged: Staged, paths: seq<Parts>) {
    (forall p :: p in paths <==> p in staged) && Increasing(PartsLess, paths)
      && Archived(members, staged, paths, |paths|)
  }

  /** The archive name of each file that was archived, by inode. */
  ghost predicate Remembers(inodes: map<nat, string>, staged: Staged, paths: seq<Parts>, n: nat)
    requires n <= |paths| && forall p | p in paths :: p in staged
  {
    && (forall inode <- inodes :: exists j: nat ::
      j < n && IsFileWith(staged, paths[j], inode) && inodes[inode] == ArchiveName(paths[j]))
    && (forall j: nat | j < n && staged[paths[j]].Plain? :: staged[paths[j]].inode in inodes)
  }

  predicate IsFileWith(staged: Staged, path: Parts, inode: nat) {
    path in staged && staged[path].Plain? && staged[path].inode == inode
  }

  /** The member for the k-th path. */
  method ArchiveEntry(staged: Staged, ghost paths: seq<Parts>, ghost k: nat, path: Parts, inodes: map<nat, string>)
    returns (member: Member, inodes': map<nat, string>)
    requires k < |paths| && (forall p | p in paths :: p in staged) && path == paths[k]
    requires Remembers(inodes, staged, paths, k)
    ensures member.name == ArchiveName(path) && IsBody(member.body, staged, paths, k)
    ensures Remembers(inodes', staged, paths, k + 1)
  {
    hide ArchiveName;
    var name := ArchiveName(path);
    inodes' := inodes;
    match staged[path] {
      case Folder => member := Member(name, Directory(0));
      case Special => member := Member(name, Unsupported(0));
      case Plain(inode, content) =>
        if inode in inodes {
          ghost var j: nat :| j < k && IsFileWith(staged, paths[j], inode) && inodes[inode] == ArchiveName(paths[j]);
          assert SameFile(staged, paths, j, k);
          member := Member(name, Link(0, inodes[inode]));
        } else {
          member := Member(name, File(content));
          inodes' := inodes[inode := name];
          assert IsFileWith(staged, paths[k], inode);
        }
    }
  }

  /** sorted(source.rglob("*")) */
  function SortedPaths(staged: Staged): (paths: seq<Parts>)
    ensures (forall p :: p in paths <==> p in staged) && Increasing(PartsLess, paths)
  {
    PartsOrder();
    Sorted(PartsLess, staged.Keys)
  }

  /** normalized_tar */
  method NormalizedTar(staged: Staged) returns (members: seq<Member>)
    ensures IsArchive(members, staged, SortedPaths(staged))
  {
    hide IsBody, Remembers, ArchiveName, Increasing, Archived;
    var sorted := SortedPaths(staged);
    members := [Member(BUNDLE_ROOT, Directory(0))];
    var inodes: map<nat, string> := map[];
    NothingRemembered(staged, sorted);
    RootArchived(staged, sorted);
    for k := 0 to |sorted|
      invariant Archived(members, staged, sorted, k) && Remembers(inodes, staged, sorted, k)
    {
      var member;
      member, inodes := ArchiveEntry(staged, sorted, k, sorted[k], inodes);
      OneMoreArchived(members, staged, sorted, k, member);
      members := members + [member];
    }
  }

  lemma RootArchived(staged: Staged, paths: seq<Parts>)
    requires forall p | p in paths :: p in staged
    ensures Archived([Member(BUNDLE_ROOT, Directory(0))], staged, paths, 0)
  {
  }

  lemma OneMoreArchived(members: seq<Member>, staged: Staged, paths: seq<Parts>, k: nat, member: Member)
    requires k < |paths| && (forall p | p in paths :: p in staged) && Archived(members, staged, paths, k)
    requires member.name == ArchiveName(paths[k]) && IsBody(member.body, staged, paths, k)
    ensures Archived(members + [member], staged, paths, k + 1)
  {
    hide IsBody, ArchiveName;
  }

  lemma NothingRemembered(staged: Staged, paths: seq<Parts>)
    requires forall p | p in paths :: p in staged
    ensures Remembers(map[], staged, paths, 0)
  {
  }

  // ----- archiving and extracting ---------------------------------------------------------------------

  /** Everything in the directory can be archived. */
  ghost predicate IsArchivable(staged: Staged) {
    forall p <- staged :: !staged[p].Special? && forall part | part in p :: '\\' !in part
  }

  lemma NameOfMember(path: Parts)
    requires path != [] && forall part | part in path :: IsFileName(part)
    ensures PartsOf(ArchiveName(path)) == [BUNDLE_ROOT] + path
    ensures UnderRoot(ArchiveName(path)) <==> forall part | part in path :: '\\' !in part
  {
    hide PartsOf, IsSafe;
    var all := [BUNDLE_ROOT] + path;
    RootIsName();
    assert forall part :: part in all <==> part == BUNDLE_ROOT || part in path;
    assert all[1..] == path && ArchiveName(path) == Joined(all);
    PartsOfJoined(all);
    JoinedIsSafe(all);
  }

  lemma RootIsName()
    ensures IsFileName(BUNDLE_ROOT) && '\\' !in BUNDLE_ROOT
    ensures PartsOf(BUNDLE_ROOT) == [BUNDLE_ROOT] && UnderRoot(BUNDLE_ROOT)
  {
    hide PartsOf, IsSafe;
    assert Joined([BUNDLE_ROOT]) == BUNDLE_ROOT;
    PartsOfJoined([BUNDLE_ROOT]);
    JoinedIsSafe([BUNDLE_ROOT]);
  }

  predicate NoBackslash(path: Parts) { forall part | part in path :: '\\' !in part }

  function InRoot(path: Parts): Parts { [BUNDLE_ROOT] + path }

  predicate Targets(target: string, path: Parts) {
    PartsOf(target) == InRoot(path) && (UnderRoot(target) <==> NoBackslash(path))
  }

  /** What the member for a path says of it. */
  ghost predicate Mirrors(m: Member, staged: Staged, paths: seq<Parts>, k: nat)
    requires k < |paths| && forall p | p in paths :: p in staged
  {
    && m.Path() == InRoot(paths[k]) && (UnderRoot(m.name) <==> NoBackslash(paths[k]))
    && match staged[paths[k]]
      case Folder => m.body.Directory?
      case Special => m.body.Unsupported?
      case Plain(inode, content) =>
        || m.body == File(content)
        || (m.body.Link? && exists j: nat ::
          j < k && IsFileWith(staged, paths[j], inode) && Targets(m.body.target, paths[j]))
  }

  lemma MemberMirrors(m: Member, staged: Staged, paths: seq<Parts>, k: nat)
    requires IsDirectoryTree(staged) && k < |paths| && forall p | p in paths :: p in staged
    requires m.name == ArchiveName(paths[k]) && IsBody(m.body, staged, paths, k)
    ensures Mirrors(m, staged, paths, k)
  {
    hide PartsOf, IsSafe, ArchiveName;
    assert paths[k] in paths;
    NameOfMember(paths[k]);
    if m.body.Link? {
      var j: nat :| SameFile(staged, paths, j, k) && m.body == Link(0, ArchiveName(paths[j]));
      assert paths[j] in paths;
      NameOfMember(paths[j]);
      assert IsFileWith(staged, paths[j], staged[paths[k]].inode);
    }
  }

  ghost predicate Mirrored(members: seq<Member>, staged: Staged, paths: seq<Parts>) {
    && IsDirectoryTree(staged) && (forall p :: p in paths <==> p in staged)
    && (forall i, j | 0 <= i < j < |paths| :: paths[i] != paths[j])
    && |members| == |paths| + 1
    && members[0].Path() == InRoot([]) && members[0].body == Directory(0) && UnderRoot(members[0].name)
    && forall m, k | 0 <= k < |paths| && m == k + 1 :: Mirrors(members[m], staged, paths, k)
  }

  lemma ArchiveMirrors(members: seq<Member>, staged: Staged, paths: seq<Parts>)
    requires IsDirectoryTree(staged) && IsArchive(members, staged, paths)
    ensures Mirrored(members, staged, paths)
  {
    hide PartsOf, IsSafe, ArchiveName, IsBody, Mirrors, PartsLess;
    RootIsName();
    assert InRoot([]) == [BUNDLE_ROOT];
    forall m, k | 0 <= k < |paths| && m == k + 1
      ensures Mirrors(members[m], staged, paths, k)
    {
      MemberMirrors(members[m], staged, paths, k);
    }
    forall i, j | 0 <= i < j < |paths|
      ensures paths[i] != paths[j]
    {
      PartsOrder();
      assert PartsLess(paths[i], paths[j]);
    }
  }

  /** A path of the archive is a file exactly when it was one in the directory. */
  lemma FileOfStaged(members: seq<Member>, staged: Staged, paths: seq<Parts>, n: nat, p: Parts)
    requires Mirrored(members, staged, paths) && n <= |members| && FileAt(members, n, p)
    ensures p != [] && p[0] == BUNDLE_ROOT && p[1..] in staged && staged[p[1..]].Plain?
  {
    hide PartsOf, UnderRoot;
    var m :| 0 <= m < n && members[m].Path() == p && members[m].MakesFile();
    assert Mirrors(members[m], staged, paths, m - 1);
    assert p[1..] == paths[m - 1] && paths[m - 1] in paths;
  }

  lemma DirOfStaged(members: seq<Member>, staged: Staged, paths: seq<Parts>, n: nat, p: Parts)
    requires Mirrored(members, staged, paths) && n <= |members| && DirAt(members, n, p)
    requires forall q <- staged :: !staged[q].Special?
    ensures p != [] && p[0] == BUNDLE_ROOT && (p == [BUNDLE_ROOT] || (p[1..] in staged && staged[p[1..]].Folder?))
  {
    hide PartsOf, UnderRoot;
    var m :| 0 <= m < n && DirFor(members[m], p);
    if m > 0 {
      assert Mirrors(members[m], staged, paths, m - 1);
      var q := paths[m - 1];
      assert q in paths && q in staged;
      assert p == InRoot(q)[..|p|];
      assert p[1..] == q[..|p| - 1];
      if 1 <= |p| - 1 < |q| {
        assert q[..|p| - 1] in staged;
      } else if |p| - 1 == |q| {
        assert p[1..] == q;
      }
    } else {
      assert p == InRoot([])[..|p|];
    }
  }

  lemma MemberFits(members: seq<Member>, staged: Staged, paths: seq<Parts>, n: nat)
    requires Mirrored(members, staged, paths) && IsArchivable(staged) && n < |members|
    requires TotalSize(members, n + 1) <= SIZE_LIMIT
    ensures Fits(members, n)
  {
    hide PartsOf, UnderRoot, FileAt, DirAt, TotalSize;
    var path := members[n].Path();
    forall j | 0 <= j < n
      ensures members[j].Path() != path
    {
      assert Mirrors(members[n], staged, paths, n - 1);
      if j > 0 {
        assert Mirrors(members[j], staged, paths, j - 1);
        assert members[j].Path()[1..] == paths[j - 1] && path[1..] == paths[n - 1];
      } else {
        assert path[1..] == paths[n - 1] && paths[n - 1] in paths;
      }
    }
    if n > 0 {
      assert Mirrors(members[n], staged, paths, n - 1);
      var q := paths[n - 1];
      assert q in paths && q in staged;
      assert path[1..] == q;
      forall k | 1 <= k < |path|
        ensures !FileAt(members, n, path[..k])
      {
        assert path[..k][1..] == q[..k - 1];
        assert k > 1 ==> q[..k - 1] in staged && staged[q[..k - 1]].Folder?;
        if FileAt(members, n, path[..k]) {
          FileOfStaged(members, staged, paths, n, path[..k]);
        }
      }
      if members[n].MakesFile() && DirAt(members, n, path) {
        DirOfStaged(members, staged, paths, n, path);
      }
      if members[n].body.Link? {
        var j: nat :| j < n - 1 && IsFileWith(staged, paths[j], staged[q].inode)
          && Targets(members[n].body.target, paths[j]);
        LinkedIsThere(members, staged, paths, n, j);
      }
    }
  }

  lemma LinkedIsThere(members: seq<Member>, staged: Staged, paths: seq<Parts>, n: nat, j: nat)
    requires Mirrored(members, staged, paths) && j + 1 < n <= |members| && staged[paths[j]].Plain?
    ensures FileAt(members, n, InRoot(paths[j])) && paths[j] in staged
  {
    hide PartsOf, UnderRoot;
    assert paths[j] in paths;
    assert Mirrors(members[j + 1], staged, paths, j);
  }

  lemma {:induction false} TotalGrows(members: seq<Member>, n: nat, m: nat)
    requires n <= m <= |members|
    ensures TotalSize(members, n) <= TotalSize(members, m)
  {
    if n < m { TotalGrows(members, n, m - 1); }
  }

  /** An archive written from a directory is accepted exactly when the directory holds only
      folders and plain files without backslashes in their names, and is not too large. */
  lemma ArchiveAccepted(members: seq<Member>, staged: Staged, paths: seq<Parts>)
    requires IsDirectoryTree(staged) && IsArchive(members, staged, paths)
    ensures AllFit(members, |members|) <==> IsArchivable(staged) && TotalSize(members, |members|) <= 8589934592
  {
    assert SIZE_LIMIT == 8589934592;
    hide *;
    ArchiveMirrors(members, staged, paths);
    if IsArchivable(staged) && TotalSize(members, |members|) <= SIZE_LIMIT {
      MembersFit(members, staged, paths);
    }
    if AllFit(members, |members|) {
      FittingIsArchivable(members, staged, paths);
    }
  }

  lemma MembersFit(members: seq<Member>, staged: Staged, paths: seq<Parts>)
    requires Mirrored(members, staged, paths) && IsArchivable(staged) && TotalSize(members, |members|) <= SIZE_LIMIT
    ensures AllFit(members, |members|)
  {
    hide IsArchivable, Mirrored, Fits, TotalSize;
    forall n | 0 <= n < |members|
      ensures Fits(members, n)
    {
      TotalGrows(members, n + 1, |members|);
      MemberFits(members, staged, paths, n);
    }
  }

  lemma FittingIsArchivable(members: seq<Member>, staged: Staged, paths: seq<Parts>)
    requires Mirrored(members, staged, paths) && AllFit(members, |members|)
    ensures IsArchivable(staged) && TotalSize(members, |members|) <= SIZE_LIMIT
  {
    hide PartsOf, UnderRoot, FileAt, DirAt, TotalSize, NoFileAbove, Targets, IsFileWith, IsDirectoryTree;
    var last := |members| - 1;
    assert Fits(members, last) && last + 1 == |members|;
    forall p <- staged
      ensures !staged[p].Special? && NoBackslash(p)
    {
      assert p in paths;
      var k :| 0 <= k < |paths| && paths[k] == p;
      var m := k + 1;
      assert Fits(members, m) && Mirrors(members[m], staged, paths, k);
    }
  }

  lemma {:induction false} FileContent(d: Destination, members: seq<Member>, staged: Staged, paths: seq<Parts>, k: nat)
    requires Mirrored(members, staged, paths) && Holds(d, members, |members|)
    requires k < |paths| && staged[paths[k]].Plain?
    ensures InRoot(paths[k]) in d.files && d.files[InRoot(paths[k])] == staged[paths[k]].content
    decreases k
  {
    hide PartsOf, UnderRoot, FileAt, DirAt;
    var m := k + 1;
    assert paths[k] in paths;
    assert Mirrors(members[m], staged, paths, k) && HasContent(d, members, m);
    if members[m].body.Link? {
      var j: nat :| j < k && IsFileWith(staged, paths[j], staged[paths[k]].inode)
        && Targets(members[m].body.target, paths[j]);
      FileContent(d, members, staged, paths, j);
    }
  }

  function FilePaths(staged: Staged): (r: set<Parts>)
    ensures forall p :: p in r <==> p != [] && p[0] == BUNDLE_ROOT && p[1..] in staged && staged[p[1..]].Plain?
  {
    var r := set q | q in staged && staged[q].Plain? :: InRoot(q);
    assert forall p: Parts | p != [] && p[0] == BUNDLE_ROOT :: p == InRoot(p[1..]);
    assert forall q: Parts :: InRoot(q)[1..] == q;
    r
  }

  function FolderPaths(staged: Staged): (r: set<Parts>)
    ensures forall p :: p in r <==> p != [] && p[0] == BUNDLE_ROOT && p[1..] in staged && staged[p[1..]].Folder?
  {
    var r := set q | q in staged && staged[q].Folder? :: InRoot(q);
    assert forall p: Parts | p != [] && p[0] == BUNDLE_ROOT :: p == InRoot(p[1..]);
    assert forall q: Parts :: InRoot(q)[1..] == q;
    r
  }

  /** The staged directory, under the root of the bundle. */
  function Unpacked(staged: Staged): Destination {
    Destination(map p | p in FilePaths(staged) :: staged[p[1..]].content, {InRoot([])} + FolderPaths(staged))
  }

  /** Extracting what was written gives back every file with its bytes, every folder, and
      nothing else. */
  lemma ArchiveRoundTrip(d: Destination, members: seq<Member>, staged: Staged, paths: seq<Parts>)
    requires IsDirectoryTree(staged) && IsArchive(members, staged, paths)
    requires AllFit(members, |members|) && Holds(d, members, |members|)
    ensures d == Unpacked(staged)
  {
    hide *;
    ArchiveMirrors(members, staged, paths);
    ArchiveAccepted(members, staged, paths);
    NothingSpecial(staged);
    forall p: Parts
      ensures SameAt(d, Unpacked(staged), p)
    {
      BackInPlace(d, members, staged, paths, p);
    }
    SameEverywhere(d, Unpacked(staged));
  }

  lemma NothingSpecial(staged: Staged)
    requires IsArchivable(staged)
    ensures forall q <- staged :: !staged[q].Special?
  {
  }

  predicate SameAt(d: Destination, e: Destination, p: Parts) {
    (p in d.files <==> p in e.files) && (p in d.files ==> d.files[p] == e.files[p]) && (p in d.dirs <==> p in e.dirs)
  }

  lemma SameEverywhere(d: Destination, e: Destination)
    requires forall p :: SameAt(d, e, p)
    ensures d == e
  {
    forall p: Parts
      ensures p in d.files <==> p in e.files
      ensures p in d.dirs <==> p in e.dirs
      ensures p in d.files ==> d.files[p] == e.files[p]
    {
      assert SameAt(d, e, p);
    }
    assert d.files == e.files;
    assert d.dirs == e.dirs;
  }

  lemma BackInPlace(d: Destination, members: seq<Member>, staged: Staged, paths: seq<Parts>, p: Parts)
    requires Mirrored(members, staged, paths) && Holds(d, members, |members|)
    requires forall q <- staged :: !staged[q].Special?
    ensures SameAt(d, Unpacked(staged), p)
  {
    hide PartsOf, UnderRoot, FileAt, FilePaths, FolderPaths, Mirrored, Holds;
    NothingElse(d, members, staged, paths, p);
    if p == InRoot([]) || p in FilePaths(staged) || p in FolderPaths(staged) {
      EverythingBack(d, members, staged, paths, p);
    }
  }

  lemma NothingElse(d: Destination, members: seq<Member>, staged: Staged, paths: seq<Parts>, p: Parts)
    requires Mirrored(members, staged, paths) && Holds(d, members, |members|)
    requires forall q <- staged :: !staged[q].Special?
    ensures p in d.files ==> p in FilePaths(staged)
    ensures p in d.dirs ==> p == InRoot([]) || p in FolderPaths(staged)
  {
    hide PartsOf, UnderRoot, FileAt, DirAt, FilePaths, FolderPaths, Mirrored, HasContent;
    if p in d.files {
      FileOfStaged(members, staged, paths, |members|, p);
    }
    if p in d.dirs {
      DirOfStaged(members, staged, paths, |members|, p);
    }
  }

  lemma EverythingBack(d: Destination, members: seq<Member>, staged: Staged, paths: seq<Parts>, p: Parts)
    requires Mirrored(members, staged, paths) && Holds(d, members, |members|)
    ensures p == InRoot([]) || p in FolderPaths(staged) ==> p in d.dirs
    ensures p in FilePaths(staged) ==> p in d.files && d.files[p] == staged[p[1..]].content
  {
    hide PartsOf, UnderRoot, FileAt, FilePaths, FolderPaths, HasContent, IsDirectoryTree;
    if p == InRoot([]) {
      assert DirFor(members[0], p);
    }
    if p in FilePaths(staged) || p in FolderPaths(staged) {
      assert p[1..] in paths;
      var k :| 0 <= k < |paths| && paths[k] == p[1..];
      var m := k + 1;
      assert p == InRoot(paths[k]);
      assert Mirrors(members[m], staged, paths, k);
      if staged[paths[k]].Plain? {
        FileContent(d, members, staged, paths, k);
      } else {
        assert DirFor(members[m], p);
      }
    }
  }
}
