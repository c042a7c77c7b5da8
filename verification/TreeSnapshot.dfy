/** tools/boot_marker_baseline.py: the bounded snapshot of a runtime tree through pinned
    descriptors, for every script of failing calls and concurrent changes. */
module TreeSnapshot {
  import opened Ordering
  import opened TreeWalk
  import opened TreeKernel
  import opened Options

  // ----- reading one file -----------------------------------------------------------------------

  function FileIdentity(s: Stat): (int, int, nat, int, int) {
    (s.dev, s.ino, s.size, s.mtime, s.ctime)
  }

  function DirectoryIdentity(s: Stat): (int, int, Kind, int, int) {
    (s.dev, s.ino, s.kind, s.uid, s.gid)
  }

  /** A file is the same if device, inode, size and both times are; a directory if device, inode,
      kind, owner and group are, whatever has been put into it. */
  lemma IdentitiesMean(s: Stat, t: Stat)
    ensures FileIdentity(s) == FileIdentity(t)
      <==> s == t.(kind := s.kind, uid := s.uid, gid := s.gid)
    ensures DirectoryIdentity(s) == DirectoryIdentity(t)
      <==> s == t.(size := s.size, mtime := s.mtime, ctime := s.ctime)
  {
  }

  /** `s` is what the undisturbed tree has under the directory open as `dir`. */
  ghost predicate Sees(k: Kernel, dir: nat, name: string, s: Stat)
    reads k
  {
    dir in k.at && k.at[dir] + [name] in k.tree && s == k.tree[k.at[dir] + [name]]
  }

  predicate HasSize(tree: Tree, place: Parts, size: nat) { place in tree && tree[place].size == size }

  /** The reads of a file of the given size, and one more that must find nothing. */
  method ReadWhole(k: Kernel, fd: nat, size: nat) returns (ok: bool)
    requires k.Valid() && fd in k.open
    modifies k
    ensures k.Valid() && k.Keeps() && k.open == old(k.open) && k.at == old(k.at) && k.unexamined == old(k.unexamined)
    ensures k.delivered <= old(k.delivered) + size + 1 && (ok ==> k.delivered == old(k.delivered) + size)
    ensures k.faults == old(k.faults) && HasSize(k.tree, old(k.at)[fd], size) && old(k.pos)[fd] == 0 ==> ok
  {
    var remaining := size;
    ok := true;
    while ok && remaining > 0
      invariant k.Valid() && k.Keeps() && k.open == old(k.open) && k.at == old(k.at)
        && k.unexamined == old(k.unexamined)
      invariant 0 <= remaining <= size && k.delivered == old(k.delivered) + (size - remaining)
      invariant k.faults == old(k.faults) && HasSize(k.tree, k.at[fd], size) && old(k.pos)[fd] == 0 ==>
        ok && k.pos[fd] == size - remaining
      decreases remaining, ok
    {
      var got;
      ok, got := k.Read(fd, if remaining < 65536 then remaining else 65536);
      if ok && got == 0 { ok := false; }
      remaining := remaining - got;
    }
    if ok {
      var extra;
      ok, extra := k.Read(fd, 1);
      ok := ok && extra == 0;
    }
  }

  /** Call n sees, at `place`, a file with the identity of `expected`. */
  predicate SeesFile(tree: Tree, script: nat -> Answer, n: nat, place: Parts, expected: Stat) {
    var seen := StatSeen(tree, script, n, place);
    seen.Some? && FileIdentity(seen.value) == FileIdentity(expected)
  }

  /** The calls from `first` to before `end` opened the path and saw four times the identity of
      `expected`: in the opened file before and after the reads, and at the path in the end. */
  ghost predicate SameFile(tree: Tree, script: nat -> Answer, first: nat, end: nat, path: Parts, expected: Stat) {
    var place := OpenSeen(tree, script, first, path, false);
    && first + 4 <= end && place.Some? && SeesFile(tree, script, first + 1, place.value, expected)
    && SeesFile(tree, script, end - 2, place.value, expected) && SeesFile(tree, script, end - 1, path, expected)
  }

  /** read_bounded_regular_at.  A successful read has exactly the length the caller saw in
      `expected`: the identity check is what makes the caller's size budget hold.  Contents are
      represented by their length. */
  method ReadBoundedRegularAt(k: Kernel, dir: nat, name: string, expected: Stat, maxBytes: nat)
    returns (ok: bool, length: nat)
    requires k.Valid() && dir in k.open
    modifies k
    ensures k.Valid() && k.Keeps() && k.open == old(k.open)
    ensures ok ==> length == expected.size <= maxBytes && k.delivered == old(k.delivered) + length
    ensures ok ==> SameFile(k.tree, k.script, old(k.calls), k.calls, old(k.at)[dir] + [name], expected)
    ensures k.delivered <= old(k.delivered) + maxBytes + 1
    ensures k.faults == old(k.faults) && SafeName(name) && IsFileAt(k, dir, name) ==> (
      var actual := k.tree[k.at[dir] + [name]];
      && (ok <==> actual.size <= maxBytes && FileIdentity(expected) == FileIdentity(actual))
      && k.delivered == old(k.delivered) + if actual.size <= maxBytes then actual.size else 0)
  {
    hide Faulty, SafeName, Grown, FileIdentity, OpenSeen, StatSeen, SameFile;
    ghost var path, first := k.at[dir] + [name], k.calls;
    var before, after, afterPath;
    ghost var place;
    ok, length, before, after, place := ReadAt(k, dir, name, maxBytes);
    SameDirectory(old(k.at), k.at, dir);
    if !ok { return; }
    FileSeen(k.tree, k.script, k.calls, path);
    ok, afterPath := k.StatAt(dir, name);
    ok := ok && FileIdentity(expected) == FileIdentity(before) == FileIdentity(after) == FileIdentity(afterPath);
    if ok {
      IsSameFile(k.tree, k.script, first, k.calls, path, place, expected, before, after, afterPath);
    }
  }

  /** The file is opened, examined, read, examined again and closed. */
  method ReadAt(k: Kernel, dir: nat, name: string, maxBytes: nat)
    returns (ok: bool, length: nat, before: Stat, after: Stat, ghost place: Parts)
    requires k.Valid() && dir in k.open
    modifies k
    ensures k.Valid() && k.Keeps() && k.open == old(k.open)
    ensures ok ==> length == before.size <= maxBytes && k.delivered == old(k.delivered) + length
    ensures ok ==> (
      && old(k.calls) + 3 <= k.calls
      && OpenSeen(k.tree, k.script, old(k.calls), old(k.at)[dir] + [name], false) == Some(place)
      && StatSeen(k.tree, k.script, old(k.calls) + 1, place) == Some(before)
      && StatSeen(k.tree, k.script, k.calls - 1, place) == Some(after))
    ensures k.delivered <= old(k.delivered) + maxBytes + 1
    ensures k.faults == old(k.faults) && SafeName(name) && IsFileAt(k, dir, name) ==> (
      var actual := k.tree[k.at[dir] + [name]];
      && (ok <==> actual.size <= maxBytes) && (ok ==> before == after == actual)
      && k.delivered == old(k.delivered) + if actual.size <= maxBytes then actual.size else 0)
  {
    hide Faulty, SafeName, Grown, FileIdentity, OpenSeen, StatSeen;
    ok, length, before, place := false, 0, Stat(Special, 0, 0, 0, 0, 0, 0, 0), [];
    after := before;
    GrownByItself(k.at);
    if !SafeName(name) { return; }
    FileSeen(k.tree, k.script, k.calls, k.at[dir] + [name]);
    var fd;
    ok, fd := k.OpenAt(dir, name, false);
    SameDirectory(old(k.at), k.at, dir);
    if !ok { return; }
    place := k.at[fd];
    ok, length, before, after := ReadOpened(k, fd, maxBytes);
    k.Close(fd);
  }

  lemma IsSameFile(tree: Tree, script: nat -> Answer, first: nat, end: nat, path: Parts, place: Parts,
                   expected: Stat, before: Stat, after: Stat, afterPath: Stat)
    requires first + 4 <= end && OpenSeen(tree, script, first, path, false) == Some(place)
    requires StatSeen(tree, script, first + 1, place) == Some(before)
    requires StatSeen(tree, script, end - 2, place) == Some(after)
    requires StatSeen(tree, script, end - 1, path) == Some(afterPath)
    requires FileIdentity(expected) == FileIdentity(before) == FileIdentity(after) == FileIdentity(afterPath)
    ensures SameFile(tree, script, first, end, path, expected) && expected.size == before.size
  {
    hide OpenSeen, StatSeen;
  }

  /** The reads from the new descriptor, between the two examinations of the open file. */
  method ReadOpened(k: Kernel, fd: nat, maxBytes: nat) returns (ok: bool, length: nat, before: Stat, after: Stat)
    requires k.Valid() && fd in k.open && k.pos[fd] == 0
    modifies k
    ensures k.Valid() && k.Keeps() && k.open == old(k.open) && k.at == old(k.at)
    ensures ok ==> before.kind == RegularFile && length == before.size <= maxBytes
    ensures ok ==> k.delivered == old(k.delivered) + length
    ensures ok ==> old(k.calls) + 2 <= k.calls && StatSeen(k.tree, k.script, old(k.calls), k.at[fd]) == Some(before)
    ensures ok ==> StatSeen(k.tree, k.script, k.calls - 1, k.at[fd]) == Some(after)
    ensures k.delivered <= old(k.delivered) + maxBytes + 1
    ensures k.faults == old(k.faults) && k.at[fd] in k.tree && k.tree[k.at[fd]].kind == RegularFile ==> (
      var actual := k.tree[k.at[fd]];
      && (ok <==> actual.size <= maxBytes) && (ok ==> before == after == actual)
      && k.delivered == old(k.delivered) + if actual.size <= maxBytes then actual.size else 0)
  {
    hide Faulty;
    length, after := 0, Stat(Special, 0, 0, 0, 0, 0, 0, 0);
    ok, before := k.Fstat(fd);
    ok := ok && before.kind == RegularFile && before.size <= maxBytes;
    if !ok { return; }
    length := before.size;
    ok := ReadWhole(k, fd, before.size);
    if ok { ok, after := k.Fstat(fd); }
  }

  /** What a call that goes as the tree has it shows of a regular file. */
  lemma FileSeen(tree: Tree, script: nat -> Answer, n: nat, path: Parts)
    ensures path in tree && tree[path].kind == RegularFile && script(n).Fine? ==>
      OpenSeen(tree, script, n, path, false) == Some(path) && StatSeen(tree, script, n, path) == Some(tree[path])
  {
  }

  ghost predicate IsFileAt(k: Kernel, dir: nat, name: string)
    reads k
  {
    dir in k.at && k.at[dir] + [name] in k.tree && k.tree[k.at[dir] + [name]].kind == RegularFile
  }

  // ----- queued directories -----------------------------------------------------------------------

  datatype QueuedDirectory = QueuedDirectory(parts: Parts, depth: nat, fd: nat, identity: (int, int, Kind, int, int))

  /** The descriptor and the recorded identity belong to the entry's path. */
  ghost predicate Pinned(tree: Tree, at: map<nat, Parts>, q: QueuedDirectory) {
    q.fd in at && at[q.fd] == q.parts && q.parts in tree && tree[q.parts].kind == Directory
    && q.identity == DirectoryIdentity(tree[q.parts])
  }

  /** The queue entry matches the undisturbed tree. */
  ghost predicate Faithful(tree: Tree, at: map<nat, Parts>, maxDepth: nat, q: QueuedDirectory) {
    Pinned(tree, at, q) && |q.parts| == q.depth && (q.parts == [] || IsQueueable(tree, maxDepth, q.parts))
  }

  predicate IsDirectory(tree: Tree, parts: Parts) { parts in tree && tree[parts].kind == Directory }

  lemma {:induction false} PrefixIsDirectory(tree: Tree, parts: Parts, i: nat)
    requires IsTree(tree) && parts in tree && tree[parts].kind == Directory && i <= |parts|
    ensures parts[..i] in tree && tree[parts[..i]].kind == Directory
    ensures i < |parts| ==> SafeName(parts[i])
    decreases |parts| - i
  {
    if i < |parts| {
      PrefixIsDirectory(tree, parts, i + 1);
      assert parts[..i] == Parent(parts[..i + 1]);
      assert parts[..i + 1][i] == parts[i];
    } else {
      assert parts[..i] == parts;
    }
  }

  lemma PathIsOpenable(tree: Tree, parts: Parts)
    requires IsTree(tree) && IsDirectory(tree, parts)
    ensures forall i: nat | i <= |parts| :: IsDirectory(tree, parts[..i]) && (i < |parts| ==> SafeName(parts[i]))
  {
    forall i: nat | i <= |parts| {
      PrefixIsDirectory(tree, parts, i);
    }
  }

  /** Where call n leads that opens one component below `place`. */
  function Entered(tree: Tree, script: nat -> Answer, n: nat, place: Parts, part: string): Option<Parts> {
    if SafeName(part) then OpenSeen(tree, script, n, place + [part], true) else None
  }

  /** One step down: open the component, then let go of the directory it was opened from. */
  method EnterDirectory(k: Kernel, fd: nat, part: string) returns (ok: bool, below: nat)
    requires k.Valid() && fd in k.open
    modifies k
    ensures k.Valid() && k.Keeps() && k.delivered == old(k.delivered) && k.unexamined == old(k.unexamined)
    ensures if ok then below !in old(k.open) && k.open == old(k.open) - {fd} + {below} else k.open == old(k.open) - {fd}
    ensures k.calls == old(k.calls) + (if SafeName(part) then 1 else 0) && (ok ==> SafeName(part))
    ensures Entered(k.tree, k.script, old(k.calls), old(k.at)[fd], part) == if ok then Some(k.at[below]) else None
  {
    ok, below := false, 0;
    if SafeName(part) {
      ok, below := k.OpenAt(fd, part, true);
    }
    k.Close(fd);
  }

  /** Where the calls from `first` on lead that open the first `n` components one below the other. */
  function Walked(tree: Tree, script: nat -> Answer, first: nat, from: Parts, parts: Parts, n: nat): Option<Parts>
    requires n <= |parts|
  {
    if n == 0 then Some(from) else
      match Walked(tree, script, first, from, parts, n - 1)
      case None => None
      case Some(place) => Entered(tree, script, first + n - 1, place, parts[n - 1])
  }

  lemma {:induction false} WalkFails(tree: Tree, script: nat -> Answer, first: nat, from: Parts, parts: Parts,
                                     i: nat, n: nat)
    requires i <= n <= |parts| && Walked(tree, script, first, from, parts, i) == None
    ensures Walked(tree, script, first, from, parts, n) == None
    decreases n - i
  {
    if i < n { WalkFails(tree, script, first, from, parts, i, n - 1); }
  }

  lemma WalkBegins(tree: Tree, script: nat -> Answer, first: nat, from: Parts, parts: Parts)
    ensures Walked(tree, script, first, from, parts, 0) == Some(from)
  {
  }

  lemma WalkStep(tree: Tree, script: nat -> Answer, first: nat, from: Parts, parts: Parts, i: nat)
    requires i < |parts| && Walked(tree, script, first, from, parts, i).Some?
    ensures Walked(tree, script, first, from, parts, i + 1)
      == Entered(tree, script, first + i, Walked(tree, script, first, from, parts, i).value, parts[i])
  {
    hide Entered;
  }

  lemma {:induction false} FineBetween(script: nat -> Answer, first: nat, end: nat)
    requires first <= end
    ensures Faulty(script, first) <= Faulty(script, end)
    ensures Faulty(script, end) == Faulty(script, first) ==> forall n | first <= n < end :: script(n).Fine?
    decreases end
  {
    if first < end { FineBetween(script, first, end - 1); }
  }

  /** The first opens lead down a path of the tree when all calls from the dup on are fine. */
  lemma {:induction false} WalkIsCalm(tree: Tree, script: nat -> Answer, dup: nat, end: nat, parts: Parts, i: nat)
    requires IsTree(tree) && IsDirectory(tree, parts) && i <= |parts|
    requires dup + 1 + i <= end && Faulty(script, end) == Faulty(script, dup)
    ensures Walked(tree, script, dup + 1, [], parts, i) == Some(parts[..i])
  {
    hide IsTree, SafeName, IsDirectory;
    FineBetween(script, dup, end);
    if i > 0 {
      WalkIsCalm(tree, script, dup, end, parts, i - 1);
      PathIsOpenable(tree, parts);
      OpensDirectory(tree, script, dup + i, parts[..i]);
      assert parts[..i - 1] + [parts[i - 1]] == parts[..i];
    }
  }

  /** So the step that fails has seen a fault, */
  lemma StepIsCalm(tree: Tree, script: nat -> Answer, dup: nat, end: nat, from: Parts, parts: Parts, i: nat)
    requires i < |parts| && Walked(tree, script, dup + 1, from, parts, i + 1) == None
    requires end == dup + 1 + i + if SafeName(parts[i]) then 1 else 0
    ensures IsTree(tree) && IsDirectory(tree, parts) && from == [] ==> Faulty(script, end) != Faulty(script, dup)
  {
    hide IsTree, SafeName, IsDirectory, Walked, Faulty;
    if IsTree(tree) && IsDirectory(tree, parts) && from == [] && Faulty(script, end) == Faulty(script, dup) {
      PathIsOpenable(tree, parts);
      WalkIsCalm(tree, script, dup, end, parts, i + 1);
    }
  }

  /** and a walk without a fault ends at the path. */
  lemma AllIsCalm(tree: Tree, script: nat -> Answer, dup: nat, end: nat, from: Parts, parts: Parts)
    requires end == dup + 1 + |parts|
    ensures IsTree(tree) && IsDirectory(tree, parts) && from == [] && Faulty(script, end) == Faulty(script, dup) ==>
      Walked(tree, script, dup + 1, from, parts, |parts|) == Some(parts)
  {
    hide IsTree, SafeName, IsDirectory, Walked, Faulty;
    if IsTree(tree) && IsDirectory(tree, parts) && from == [] && Faulty(script, end) == Faulty(script, dup) {
      WalkIsCalm(tree, script, dup, end, parts, |parts|);
      assert parts[..|parts|] == parts;
    }
  }

  /** _open_relative_directory: walk down, holding one descriptor at a time. */
  method OpenRelativeDirectory(k: Kernel, rootFd: nat, parts: Parts) returns (ok: bool, fd: nat)
    requires k.Valid() && rootFd in k.open
    modifies k
    ensures k.Valid() && k.Keeps() && k.delivered == old(k.delivered)
    ensures if ok then fd !in old(k.open) && k.open == old(k.open) + {fd} else k.open == old(k.open)
    ensures ok ==> k.calls == old(k.calls) + 1 + |parts|
    ensures if k.script(old(k.calls)).Fine?
      then Walked(k.tree, k.script, old(k.calls) + 1, old(k.at)[rootFd], parts, |parts|)
        == if ok then Some(k.at[fd]) else None
      else !ok
    ensures k.faults == old(k.faults) && IsTree(k.tree) && IsDirectory(k.tree, parts) && old(k.at)[rootFd] == [] ==>
      ok && k.at[fd] == parts
  {
    hide IsTree, SafeName, IsDirectory, Entered, Walked, Faulty, Grown;
    ok, fd := k.Dup(rootFd);
    SameDirectory(old(k.at), k.at, rootFd);
    if !ok { return; }
    ghost var at, from := k.at, k.at[fd];
    ok, fd := WalkDown(k, fd, parts);
    GrownTwice(old(k.at), at, k.at);
  }

  /** The loop over the components; the descriptor it starts from is closed on the way. */
  method WalkDown(k: Kernel, start: nat, parts: Parts) returns (ok: bool, fd: nat)
    requires k.Valid() && start in k.open && k.calls > 0
    modifies k
    ensures k.Valid() && k.Keeps() && k.delivered == old(k.delivered)
    ensures if ok then fd !in old(k.open) - {start} && k.open == old(k.open) - {start} + {fd}
      else k.open == old(k.open) - {start}
    ensures ok ==> k.calls == old(k.calls) + |parts|
    ensures Walked(k.tree, k.script, old(k.calls), old(k.at)[start], parts, |parts|)
      == if ok then Some(k.at[fd]) else None
    ensures k.faults == Faulty(k.script, old(k.calls) - 1) ==> (
      IsTree(k.tree) && IsDirectory(k.tree, parts) && old(k.at)[start] == [] ==> ok && k.at[fd] == parts)
  {
    hide IsTree, SafeName, IsDirectory, Entered, Walked, Faulty, Grown;
    ghost var first, from := k.calls, k.at[start];
    WalkBegins(k.tree, k.script, first, from, parts);
    GrownByItself(k.at);
    ok, fd := true, start;
    for i := 0 to |parts|
      invariant k.Valid() && k.Keeps() && k.delivered == old(k.delivered)
      invariant fd !in old(k.open) - {start} && k.open == old(k.open) - {start} + {fd}
      invariant k.calls == first + i && Walked(k.tree, k.script, first, from, parts, i) == Some(k.at[fd])
    {
      WalkStep(k.tree, k.script, first, from, parts, i);
      ghost var at := k.at;
      ok, fd := EnterDirectory(k, fd, parts[i]);
      GrownTwice(old(k.at), at, k.at);
      if !ok {
        WalkFails(k.tree, k.script, first, from, parts, i + 1, |parts|);
        StepIsCalm(k.tree, k.script, first - 1, k.calls, from, parts, i);
        return;
      }
    }
    AllIsCalm(k.tree, k.script, first - 1, k.calls, from, parts);
    ok := true;
  }

  /** Call n sees, at `place`, a directory with the recorded identity. */
  predicate SeesDirectory(tree: Tree, script: nat -> Answer, n: nat, place: Parts, q: QueuedDirectory) {
    var seen := StatSeen(tree, script, n, place);
    seen.Some? && DirectoryIdentity(seen.value) == q.identity
  }

  /** From call `first` on, the directory found by walking down the path is seen with the
      recorded identity. */
  predicate PathIsPinned(tree: Tree, script: nat -> Answer, first: nat, root: Parts, q: QueuedDirectory) {
    var place := Walked(tree, script, first + 1, root, q.parts, |q.parts|);
    && script(first).Fine? && place.Some?
    && SeesDirectory(tree, script, first + 1 + |q.parts|, place.value, q)
  }

  /** From call `first` on, the pinned descriptor and the directory at the path are both seen with
      the recorded identity. */
  predicate StillPinned(tree: Tree, script: nat -> Answer, first: nat, at: map<nat, Parts>, rootFd: nat,
                        q: QueuedDirectory)
    requires rootFd in at && q.fd in at
  {
    SeesDirectory(tree, script, first, at[q.fd], q) && PathIsPinned(tree, script, first + 1, at[rootFd], q)
  }

  lemma PinnedIsSeen(tree: Tree, script: nat -> Answer, at: map<nat, Parts>, q: QueuedDirectory)
    requires q.fd in at
    ensures forall after | Grown(at, after) && Pinned(tree, after, q) :: (
      && IsDirectory(tree, q.parts) && at[q.fd] == q.parts
      && forall n | script(n).Fine? :: SeesDirectory(tree, script, n, q.parts, q))
  {
  }

  /** verify_queued_directory: the pinned descriptor and the path still agree. */
  method VerifyQueuedDirectory(k: Kernel, rootFd: nat, q: QueuedDirectory) returns (ok: bool)
    requires k.Valid() && rootFd in k.open && q.fd in k.open
    modifies k
    ensures k.Valid() && k.Keeps() && k.delivered == old(k.delivered) && k.open == old(k.open)
    ensures ok <==> StillPinned(k.tree, k.script, old(k.calls), old(k.at), rootFd, q)
    ensures k.faults == old(k.faults) && IsTree(k.tree) && k.at[rootFd] == [] && Pinned(k.tree, k.at, q) ==> ok
  {
    hide Faulty, IsTree, IsDirectory, Walked, StatSeen, PathIsPinned, Pinned, DirectoryIdentity;
    PinnedIsSeen(k.tree, k.script, k.at, q);
    var s;
    ok, s := k.Fstat(q.fd);
    ok := ok && DirectoryIdentity(s) == q.identity;
    if ok { ok := VerifyPath(k, rootFd, q); }
  }

  /** The half that looks at the path: open it from the root, examine and close it. */
  method VerifyPath(k: Kernel, rootFd: nat, q: QueuedDirectory) returns (ok: bool)
    requires k.Valid() && rootFd in k.open
    modifies k
    ensures k.Valid() && k.Keeps() && k.delivered == old(k.delivered) && k.open == old(k.open)
    ensures ok <==> PathIsPinned(k.tree, k.script, old(k.calls), old(k.at)[rootFd], q)
    ensures k.faults == old(k.faults) && IsTree(k.tree) && IsDirectory(k.tree, q.parts) && old(k.at)[rootFd] == [] ==> (
      (forall n | k.script(n).Fine? :: SeesDirectory(k.tree, k.script, n, q.parts, q)) ==> ok)
  {
    hide Faulty, IsTree, IsDirectory, Walked, StatSeen, DirectoryIdentity;
    var current, s;
    ok, current := OpenRelativeDirectory(k, rootFd, q.parts);
    if !ok { return; }
    ok, s := k.Fstat(current);
    ok := ok && DirectoryIdentity(s) == q.identity;
    k.Close(current);
  }

  // ----- rows -----------------------------------------------------------------------------------

  datatype Problem =
    NoProblem | NotThere | OverTotal | NotRead | LinkNotFollowed | OpenFailed | IdentityUnreadable | IdentityChanged

  /** One evidence row; `captured` is the size of a file whose bytes were read and digested. */
  datatype Row = RootRow(exists_: bool, problem: Problem)
               | EntryRow(path: Parts, kind: Option<Kind>, captured: Option<nat>, problem: Problem)
               | QueueRow(path: Parts)
               | EnumerationRow(path: Parts)
               | BoundaryRow

  function CapturedBytes(row: Row): nat {
    if row.EntryRow? && row.captured.Some? then row.captured.value else 0
  }

  function TotalCaptured(rows: seq<Row>): nat {
    if rows == [] then 0 else TotalCaptured(rows[..|rows| - 1]) + CapturedBytes(rows[|rows| - 1])
  }

  function Listed(rows: seq<Row>): seq<Parts> {
    if rows == [] then []
    else Listed(rows[..|rows| - 1]) + if rows[|rows| - 1].EntryRow? then [rows[|rows| - 1].path] else []
  }

  predicate IsLost(row: Row) { row.EntryRow? && row.problem == IdentityUnreadable }

  /** Directories whose fresh descriptor could not be examined: their descriptors stay open. */
  function LostCount(rows: seq<Row>): nat {
    if rows == [] then 0 else LostCount(rows[..|rows| - 1]) + if IsLost(rows[|rows| - 1]) then 1 else 0
  }

  /** Files that were opened but not captured. */
  function FailedReads(rows: seq<Row>): nat {
    if rows == [] then 0
    else FailedReads(rows[..|rows| - 1]) + if IsFailedRead(rows[|rows| - 1]) then 1 else 0
  }

  predicate IsFailedRead(row: Row) { row.EntryRow? && row.problem == NotRead }

  lemma RowsGrow(rows: seq<Row>, row: Row)
    ensures TotalCaptured(rows + [row]) == TotalCaptured(rows) + CapturedBytes(row)
    ensures Listed(rows + [row]) == Listed(rows) + if row.EntryRow? then [row.path] else []
    ensures LostCount(rows + [row]) == LostCount(rows) + if IsLost(row) then 1 else 0
    ensures FailedReads(rows + [row]) == FailedReads(rows) + if IsFailedRead(row) then 1 else 0
  {
  }

  datatype Limits = Limits(maxEntries: nat, maxDepth: nat, maxFileBytes: nat, maxTotalBytes: nat)

  /** The row of an entry that is seen to be `s` after `total` captured bytes, when nothing
      disturbs its visit: a file is captured exactly if it fits both bounds. */
  predicate RowFor(limits: Limits, total: nat, s: Stat, row: Row)
    requires row.EntryRow?
  {
    row.kind == Some(s.kind)
    && match s.kind
       case RegularFile =>
         if total + s.size > limits.maxTotalBytes then row.captured == None && row.problem == OverTotal
         else if s.size > limits.maxFileBytes then row.captured == None && row.problem == NotRead
         else row.captured == Some(s.size) && row.problem == NoProblem
       case Link => row.captured == None && row.problem == LinkNotFollowed
       case _ => row.captured == None && row.problem == NoProblem
  }

  /** Every entry has the row the tree and the bytes captured before it ask for. */
  ghost predicate Meant(tree: Tree, limits: Limits, total: nat, rows: seq<Row>) {
    rows == []
    || (var front, last := rows[..|rows| - 1], rows[|rows| - 1];
        && Meant(tree, limits, total, front)
        && (last.EntryRow? ==>
          last.path in tree && RowFor(limits, total + TotalCaptured(front), tree[last.path], last)))
  }

  lemma MeantGrows(tree: Tree, limits: Limits, total: nat, rows: seq<Row>, row: Row)
    requires Meant(tree, limits, total, rows)
    requires row.EntryRow? ==>
      row.path in tree && RowFor(limits, total + TotalCaptured(rows), tree[row.path], row)
    ensures Meant(tree, limits, total, rows + [row])
  {
    hide RowFor, TotalCaptured;
    assert (rows + [row])[..|rows|] == rows;
  }

  lemma {:induction false} MeantAppend(tree: Tree, limits: Limits, total: nat, a: seq<Row>, b: seq<Row>)
    requires Meant(tree, limits, total, a) && Meant(tree, limits, total + TotalCaptured(a), b)
    ensures Meant(tree, limits, total, a + b)
  {
    hide RowFor, TotalCaptured;
    if b == [] {
      assert a + b == a;
    } else {
      var front, last := b[..|b| - 1], b[|b| - 1];
      MeantAppend(tree, limits, total, a, front);
      RowsAppend(a, front);
      MeantGrows(tree, limits, total, a + front, last);
      assert a + b == a + front + [last];
    }
  }

  /** The row at each place. */
  lemma {:induction false} MeantAt(tree: Tree, limits: Limits, total: nat, rows: seq<Row>, i: nat)
    requires Meant(tree, limits, total, rows) && i < |rows| && rows[i].EntryRow?
    ensures rows[i].path in tree
      && RowFor(limits, total + TotalCaptured(rows[..i]), tree[rows[i].path], rows[i])
  {
    hide *;
    MeantParts(tree, limits, total, rows);
    var front := rows[..|rows| - 1];
    if i < |front| {
      MeantAt(tree, limits, total, front, i);
      assert front[..i] == rows[..i];
    }
  }

  lemma MeantParts(tree: Tree, limits: Limits, total: nat, rows: seq<Row>)
    requires Meant(tree, limits, total, rows) && rows != []
    ensures var front, last := rows[..|rows| - 1], rows[|rows| - 1];
      && Meant(tree, limits, total, front)
      && (last.EntryRow? ==>
        last.path in tree && RowFor(limits, total + TotalCaptured(front), tree[last.path], last))
  {
    hide RowFor, TotalCaptured;
  }

  /** A file is captured, with its size, if it is within the bound for files and there is room for
      it beside the bytes captured before; without room it is refused for that. */
  lemma CapturedIfItFits(tree: Tree, limits: Limits, rows: seq<Row>, i: nat)
    requires Meant(tree, limits, 0, rows) && i < |rows| && rows[i].EntryRow?
    ensures rows[i].path in tree
    ensures var s, before := tree[rows[i].path], TotalCaptured(rows[..i]);
      && rows[i].kind == Some(s.kind)
      && (rows[i].captured == Some(s.size) <==>
        s.kind == RegularFile && s.size <= limits.maxFileBytes && before + s.size <= limits.maxTotalBytes)
      && (rows[i].captured.Some? ==> rows[i].captured == Some(s.size))
      && (rows[i].problem == OverTotal <==> s.kind == RegularFile && before + s.size > limits.maxTotalBytes)
      && (rows[i].problem == LinkNotFollowed <==> s.kind == Link)
      && (rows[i].problem == NoProblem <==> rows[i].captured.Some? || s.kind in {Directory, Special})
  {
    hide TotalCaptured, Meant;
    MeantAt(tree, limits, 0, rows, i);
  }

  /** The most that can have been read for these rows: what was captured, and a file and a byte
      for each read that failed. */
  function ReadBound(rows: seq<Row>, limits: Limits): nat {
    TotalCaptured(rows) + Times(FailedReads(rows), limits.maxFileBytes + 1)
  }

  function Times(n: nat, factor: nat): nat { n * factor }

  lemma ReadBoundAppend(a: seq<Row>, b: seq<Row>, limits: Limits)
    ensures ReadBound(a + b, limits) == ReadBound(a, limits) + ReadBound(b, limits)
  {
    hide TotalCaptured, FailedReads, Times;
    RowsAppend(a, b);
    Distributes(FailedReads(a), FailedReads(b), limits.maxFileBytes + 1);
  }

  lemma Distributes(x: nat, y: nat, factor: nat)
    ensures Times(x + y, factor) == Times(x, factor) + Times(y, factor)
    ensures Times(0, factor) == 0 && Times(1, factor) == factor
  {
  }

  lemma BoundOf(rows: seq<Row>, limits: Limits)
    ensures ReadBound(rows, limits) == TotalCaptured(rows) + Times(FailedReads(rows), limits.maxFileBytes + 1)
  {
    hide TotalCaptured, FailedReads, Times;
  }

  lemma ReadBoundGrows(rows: seq<Row>, row: Row, limits: Limits)
    ensures ReadBound(rows + [row], limits)
      == ReadBound(rows, limits) + CapturedBytes(row) + if IsFailedRead(row) then limits.maxFileBytes + 1 else 0
  {
    hide *;
    BoundOf(rows, limits);
    BoundOf(rows + [row], limits);
    RowsGrow(rows, row);
    var more: nat := if IsFailedRead(row) then 1 else 0;
    Distributes(FailedReads(rows), more, limits.maxFileBytes + 1);
  }

  // ----- one entry ----------------------------------------------------------------------------------

  /** What comes of opening the child at `path` with call `first` and examining the new descriptor
      with the call after it. */
  function ChildProblem(tree: Tree, script: nat -> Answer, first: nat, path: Parts, seen: Stat): Problem {
    match OpenSeen(tree, script, first, path, true)
    case None => OpenFailed
    case Some(place) => PinProblem(StatSeen(tree, script, first + 1, place), seen)
  }

  function PinProblem(examined: Option<Stat>, seen: Stat): Problem {
    match examined
    case None => IdentityUnreadable
    case Some(s) => if DirectoryIdentity(s) == DirectoryIdentity(seen) then NoProblem else IdentityChanged
  }

  /** A directory of the tree is pinned when both calls go as the tree has it. */
  lemma DirectoryIsPinned(tree: Tree, script: nat -> Answer, first: nat, path: Parts)
    ensures IsDirectory(tree, path) && script(first).Fine? ==> OpenSeen(tree, script, first, path, true) == Some(path)
    ensures IsDirectory(tree, path) && script(first).Fine? && script(first + 1).Fine? ==>
      ChildProblem(tree, script, first, path, tree[path]) == NoProblem
  {
    hide DirectoryIdentity;
  }

  /** Try to open and pin a child directory.  The descriptor is lost exactly when the open
      succeeds and the fstat of the new descriptor fails. */
  method QueueChild(k: Kernel, dir: QueuedDirectory, name: string, seen: Stat)
    returns (problem: Problem, child: Option<QueuedDirectory>, ghost lost: set<nat>)
    requires k.Valid() && dir.fd in k.open
    modifies k
    ensures k.Valid() && k.Keeps() && k.delivered == old(k.delivered)
    ensures problem == ChildProblem(k.tree, k.script, old(k.calls), old(k.at)[dir.fd] + [name], seen)
    ensures lost !! old(k.open) && |lost| == if problem == IdentityUnreadable then 1 else 0
    ensures k.unexamined == old(k.unexamined) + |lost|
    ensures match child
      case Some(q) => problem == NoProblem && q.fd !in old(k.open) && k.open == old(k.open) + {q.fd}
        && q.parts == dir.parts + [name] && q.depth == dir.depth + 1 && q.identity == DirectoryIdentity(seen)
      case None => problem != NoProblem && k.open == old(k.open) + lost
    ensures k.faults == old(k.faults) && Sees(k, dir.fd, name, seen) && seen.kind == Directory ==> (
      k.at[dir.fd] == dir.parts ==> child.Some? && k.at[child.value.fd] == dir.parts + [name])
  {
    hide Faulty, DirectoryIdentity, OpenSeen, StatSeen, PinProblem;
    DirectoryIsPinned(k.tree, k.script, k.calls, k.at[dir.fd] + [name]);
    var ok, fd := k.OpenAt(dir.fd, name, true);
    if !ok { return OpenFailed, None, {}; }
    problem, child, lost := ExamineChild(k, dir, name, seen, fd);
  }

  /** The new descriptor is compared with what stat saw. */
  method ExamineChild(k: Kernel, dir: QueuedDirectory, name: string, seen: Stat, fd: nat)
    returns (problem: Problem, child: Option<QueuedDirectory>, ghost lost: set<nat>)
    requires k.Valid() && fd in k.open
    modifies k
    ensures k.Valid() && k.Keeps() && k.Called() && k.at == old(k.at) && k.delivered == old(k.delivered)
    ensures k.unexamined == old(k.unexamined) + |lost|
    ensures problem in {NoProblem, IdentityChanged, IdentityUnreadable} && (child.Some? <==> problem == NoProblem)
    ensures lost == if problem == IdentityUnreadable then {fd} else {}
    ensures k.open == if problem == IdentityChanged then old(k.open) - {fd} else old(k.open)
    ensures child.Some? ==>
      child.value == QueuedDirectory(dir.parts + [name], dir.depth + 1, fd, DirectoryIdentity(seen))
    ensures problem == PinProblem(StatSeen(k.tree, k.script, old(k.calls), k.at[fd]), seen)
  {
    hide Faulty, DirectoryIdentity;
    problem, child, lost := NoProblem, None, {};
    var ok, s := k.Fstat(fd);
    if !ok {
      // The exception leaves the new descriptor open.
      return IdentityUnreadable, None, {fd};
    }
    if DirectoryIdentity(s) != DirectoryIdentity(seen) {
      k.Close(fd);
      return IdentityChanged, None, {};
    }
    child := Some(QueuedDirectory(dir.parts + [name], dir.depth + 1, fd, DirectoryIdentity(s)));
  }

  /** The first of the calls since `start` saw another file than the tree has, one that still fits
      the budget; the other calls saw the tree. */
  ghost predicate OnlyStatIsOff(k: Kernel, limits: Limits, start: Moment, dir: nat, name: string, total: nat)
    reads k
  {
    && k.script(start.calls).Reports? && k.faults == start.faults + 1 && SafeName(name)
    && dir in start.at && start.at[dir] + [name] in k.tree
    && var seen, actual := k.script(start.calls).stat, k.tree[start.at[dir] + [name]];
    && seen.kind == RegularFile == actual.kind && FileIdentity(seen) != FileIdentity(actual)
    && total + seen.size <= limits.maxTotalBytes && actual.size <= limits.maxFileBytes
  }

  /** A file within the byte budget is read; one that does not fit, or cannot be read, is only
      named. */
  method CaptureFile(k: Kernel, limits: Limits, dir: nat, name: string, seen: Stat, total: nat)
    returns (captured: Option<nat>, problem: Problem)
    requires k.Valid() && dir in k.open
    modifies k
    ensures k.Valid() && k.Keeps() && k.open == old(k.open)
    ensures problem in {NoProblem, OverTotal, NotRead} && (captured.Some? <==> problem == NoProblem)
    ensures captured.Some? ==> (
      && captured.value <= limits.maxFileBytes && total + captured.value <= limits.maxTotalBytes
      && k.delivered == old(k.delivered) + captured.value && captured.value == seen.size
      && SameFile(k.tree, k.script, old(k.calls), k.calls, old(k.at)[dir] + [name], seen))
    ensures problem == OverTotal <==> total + seen.size > limits.maxTotalBytes
    ensures problem == OverTotal ==> k.delivered == old(k.delivered)
    ensures k.delivered <= old(k.delivered) + limits.maxFileBytes + 1
    ensures k.faults == old(k.faults) && IsFileAt(k, dir, name) && SafeName(name) ==> (
      var actual := k.tree[k.at[dir] + [name]];
      && (seen == actual ==>
        RowFor(limits, total, seen, EntryRow([], Some(RegularFile), captured, problem))
          && k.delivered == old(k.delivered) + if captured.Some? then captured.value else 0)
      && (FileIdentity(seen) != FileIdentity(actual) && total + seen.size <= limits.maxTotalBytes ==>
        problem == NotRead
          && k.delivered == old(k.delivered) + if actual.size <= limits.maxFileBytes then actual.size else 0))
  {
    hide SameFile, FileIdentity, Grown, Faulty;
    GrownByItself(k.at);
    if total + seen.size > limits.maxTotalBytes { return None, OverTotal; }
    var ok, length := ReadBoundedRegularAt(k, dir, name, seen, limits.maxFileBytes);
    return if ok then Some(length) else None, if ok then NoProblem else NotRead;
  }

  /** What the visit of one entry does between two moments, whatever happens. */
  ghost predicate EntrySpent(limits: Limits, dir: QueuedDirectory, name: string, total: nat, start: Moment, end: Moment,
                             row: Row, child: Option<QueuedDirectory>, lost: set<nat>) {
    && start.NoLaterThan(end) && OneMore(row, child, lost, start.open, end.open) && row.path == dir.parts + [name]
    && CapturedBytes(row) <= limits.maxFileBytes
    && (total <= limits.maxTotalBytes ==> total + CapturedBytes(row) <= limits.maxTotalBytes)
    && end.delivered <= start.delivered + CapturedBytes(row)
      + (if IsFailedRead(row) then limits.maxFileBytes + 1 else 0)
    && |lost| <= end.unexamined - start.unexamined
    && (row.kind != Some(RegularFile) ==> end.unexamined == start.unexamined + |lost|)
  }

  /** What it does when nothing disturbs it. */
  ghost predicate EntryCalm(tree: Tree, limits: Limits, total: nat, start: Moment, end: Moment, row: Row,
                            child: Option<QueuedDirectory>, lost: set<nat>)
    requires row.EntryRow? && row.path in tree
  {
    && RowFor(limits, total, tree[row.path], row) && lost == {} && end.delivered == start.delivered + CapturedBytes(row)
    && (child.Some? <==> IsQueueable(tree, limits.maxDepth, row.path))
    && (child.Some? ==> Faithful(tree, end.at, limits.maxDepth, child.value) && child.value.parts == row.path)
  }

  ghost predicate EntryDone(tree: Tree, limits: Limits, dir: QueuedDirectory, name: string, total: nat,
                            start: Moment, end: Moment, row: Row, child: Option<QueuedDirectory>, lost: set<nat>) {
    && EntrySpent(limits, dir, name, total, start, end, row, child, lost)
    && (end.faults == start.faults && IsTree(tree) && Faithful(tree, end.at, limits.maxDepth, dir) ==>
      row.path in tree ==> EntryCalm(tree, limits, total, start, end, row, child, lost))
  }

  /** A child is queued exactly for a directory within the depth bound, and pinned to its path. */
  ghost predicate ChildOf(limits: Limits, dir: QueuedDirectory, name: string, seen: Stat, at: map<nat, Parts>,
                          child: Option<QueuedDirectory>) {
    && (child.Some? <==> seen.kind == Directory && dir.depth + 1 < limits.maxDepth)
    && (child.Some? ==>
      var q := child.value;
      && q.parts == dir.parts + [name] && q.depth == dir.depth + 1 && q.identity == DirectoryIdentity(seen)
      && q.fd in at && at[q.fd] == q.parts)
  }

  /** The branches after the entry's stat. */
  method VisitSeen(k: Kernel, limits: Limits, dir: QueuedDirectory, name: string, seen: Stat, total: nat)
    returns (row: Row, child: Option<QueuedDirectory>, ghost lost: set<nat>)
    requires k.Valid() && dir.fd in k.open
    modifies k
    ensures k.Valid() && old(k.open) <= k.open && row.EntryRow?
    ensures EntrySpent(limits, dir, name, total, old(Now(k)), Now(k), row, child, lost) && row.kind == Some(seen.kind)
    ensures row.captured.Some? ==> (
      && row.captured.value == seen.size
      && SameFile(k.tree, k.script, old(k.calls), k.calls, old(k.at)[dir.fd] + [name], seen))
    ensures k.faults == old(k.faults) && Sees(k, dir.fd, name, seen) && SafeName(name) ==> (
      k.at[dir.fd] == dir.parts ==> (
        && lost == {} && k.delivered == old(k.delivered) + CapturedBytes(row)
        && RowFor(limits, total, seen, row) && ChildOf(limits, dir, name, seen, k.at, child)))
    ensures k.faults == old(k.faults) && IsFileAt(k, dir.fd, name) && SafeName(name) ==> (
      var actual := k.tree[k.at[dir.fd] + [name]];
      seen.kind == RegularFile && total + seen.size <= limits.maxTotalBytes
        && FileIdentity(seen) != FileIdentity(actual) ==>
        row.problem == NotRead
          && k.delivered == old(k.delivered) + if actual.size <= limits.maxFileBytes then actual.size else 0)
  {
    hide Faulty, FileIdentity, DirectoryIdentity, SafeName, OpenSeen, StatSeen, Grown, EntrySpent, IsFailedRead,
      SameFile;
    ghost var start := Now(k);
    GrownByItself(k.at);
    row, child, lost := EntryRow(dir.parts + [name], Some(seen.kind), None, NoProblem), None, {};
    OtherSpent(limits, dir, name, total, start, start, row, None, {});
    match seen.kind
    case RegularFile =>
      var captured, problem := CaptureFile(k, limits, dir.fd, name, seen, total);
      row := EntryRow(row.path, row.kind, captured, problem);
      FileSpent(limits, dir, name, total, start, Now(k), captured, problem);
    case Link =>
      row := EntryRow(row.path, row.kind, None, LinkNotFollowed);
      OtherSpent(limits, dir, name, total, start, start, row, None, {});
    case Directory =>
      if dir.depth + 1 < limits.maxDepth {
        var problem;
        problem, child, lost := QueueChild(k, dir, name, seen);
        row := EntryRow(row.path, row.kind, None, problem);
        OtherSpent(limits, dir, name, total, start, Now(k), row, child, lost);
      }
    case Special =>
  }

  lemma FileSpent(limits: Limits, dir: QueuedDirectory, name: string, total: nat, start: Moment, end: Moment,
                  captured: Option<nat>, problem: Problem)
    requires start.NoLaterThan(end) && end.open == start.open
    requires problem in {NoProblem, OverTotal, NotRead} && (captured.Some? <==> problem == NoProblem)
    requires captured.Some? ==> (
      && captured.value <= limits.maxFileBytes && total + captured.value <= limits.maxTotalBytes
      && end.delivered == start.delivered + captured.value)
    requires problem == OverTotal ==> end.delivered == start.delivered
    requires end.delivered <= start.delivered + limits.maxFileBytes + 1
    ensures EntrySpent(limits, dir, name, total, start, end,
      EntryRow(dir.parts + [name], Some(RegularFile), captured, problem), None, {})
  {
  }

  lemma OtherSpent(limits: Limits, dir: QueuedDirectory, name: string, total: nat, start: Moment, end: Moment,
                   row: Row, child: Option<QueuedDirectory>, lost: set<nat>)
    requires start.NoLaterThan(end) && OneMore(row, child, lost, start.open, end.open) && row.path == dir.parts + [name]
    requires row.captured == None && row.problem != NotRead
    requires end.delivered == start.delivered && end.unexamined == start.unexamined + |lost|
    ensures EntrySpent(limits, dir, name, total, start, end, row, child, lost)
  {
  }

  lemma EntryIsCalm(tree: Tree, limits: Limits, dir: QueuedDirectory, name: string, total: nat,
                    start: Moment, end: Moment, row: Row, child: Option<QueuedDirectory>, lost: set<nat>)
    requires row.EntryRow? && row.path == dir.parts + [name] && row.path in tree
      && RowFor(limits, total, tree[row.path], row)
    requires Faithful(tree, end.at, limits.maxDepth, dir) && lost == {}
      && end.delivered == start.delivered + CapturedBytes(row)
    requires ChildOf(limits, dir, name, tree[row.path], end.at, child)
    ensures EntryCalm(tree, limits, total, start, end, row, child, lost)
  {
  }

  /** A captured file had one identity from the stat of the entry, call `first`, through the stat
      of its path after the reads; its length was seen by the first stat. */
  ghost predicate CapturedSteadily(tree: Tree, script: nat -> Answer, first: nat, end: nat, path: Parts,
                                   captured: nat) {
    var seen := StatSeen(tree, script, first, path);
    seen.Some? && seen.value.size == captured && SameFile(tree, script, first + 1, end, path, seen.value)
  }

  /** What was captured is the size that was seen at first, and four times the same file was seen:
      by name, twice in what was opened, and by name again. */
  lemma SteadyMeans(tree: Tree, script: nat -> Answer, first: nat, end: nat, path: Parts, captured: nat)
    requires CapturedSteadily(tree, script, first, end, path, captured)
    ensures first + 5 <= end && OpenSeen(tree, script, first + 1, path, false).Some?
    ensures var place := OpenSeen(tree, script, first + 1, path, false).value;
      var seen := [StatSeen(tree, script, first, path), StatSeen(tree, script, first + 2, place),
        StatSeen(tree, script, end - 2, place), StatSeen(tree, script, end - 1, path)];
      forall i | 0 <= i < 4 :: (
        && seen[i].Some? && seen[i].value.size == captured && seen[0].Some?
        && seen[i].value.dev == seen[0].value.dev && seen[i].value.ino == seen[0].value.ino
        && seen[i].value.mtime == seen[0].value.mtime && seen[i].value.ctime == seen[0].value.ctime)
  {
    hide StatSeen, OpenSeen;
  }

  lemma ThereByName(tree: Tree, limits: Limits, at: map<nat, Parts>, dir: QueuedDirectory, name: string)
    requires Faithful(tree, at, limits.maxDepth, dir) && IsTree(tree) && dir.parts + [name] in tree
    ensures SafeName(name) && dir.fd in at && at[dir.fd] == dir.parts
  {
    var path := dir.parts + [name];
    assert path[|path| - 1] == name;
  }

  /** One turn of the loop over names: a row, and perhaps a queued directory or a lost
      descriptor. */
  method SnapshotEntry(k: Kernel, limits: Limits, dir: QueuedDirectory, name: string, total: nat)
    returns (row: Row, child: Option<QueuedDirectory>, ghost lost: set<nat>)
    requires k.Valid() && dir.fd in k.open
    modifies k
    ensures k.Valid() && old(k.calls) < k.calls && old(k.open) <= k.open && row.EntryRow?
    ensures EntryDone(k.tree, limits, dir, name, total, old(Now(k)), Now(k), row, child, lost)
    ensures row.captured.Some? ==>
      CapturedSteadily(k.tree, k.script, old(k.calls), k.calls, old(k.at)[dir.fd] + [name], row.captured.value)
    ensures OnlyStatIsOff(k, limits, old(Now(k)), dir.fd, name, total) ==>
      row.problem == NotRead && k.delivered == old(k.delivered) + k.tree[old(k.at)[dir.fd] + [name]].size
  {
    hide Faulty, IsTree, SafeName, Faithful, ChildOf, EntryCalm, EntryDone, EntrySpent, CapturedBytes, Grown,
      FileIdentity, IsFailedRead, OneMore, IsDirectory, SameFile, StatSeen;
    ghost var start, path := Now(k), k.at[dir.fd] + [name];
    GrownByItself(k.at);
    StatShows(k.tree, k.script, k.calls, path);
    row, child, lost := EntryRow(dir.parts + [name], None, None, NotThere), None, {};
    var ok, seen := k.StatAt(dir.fd, name);
    if !ok {
      NotThereIsDone(k.tree, limits, dir, name, total, start, Now(k));
      return;
    }
    ghost var middle := Now(k);
    row, child, lost := VisitSeen(k, limits, dir, name, seen, total);
    SpentSince(limits, dir, name, total, start, middle, Now(k), row, child, lost);
    SameDirectory(start.at, k.at, dir.fd);
    EntryIsDone(k.tree, limits, dir, name, total, start, Now(k), row, child, lost, seen);
  }

  lemma StatShows(tree: Tree, script: nat -> Answer, n: nat, path: Parts)
    ensures script(n).Fine? && path in tree ==> StatSeen(tree, script, n, path) == Some(tree[path])
    ensures script(n).Reports? ==> StatSeen(tree, script, n, path) == Some(script(n).stat)
  {
  }

  lemma SpentSince(limits: Limits, dir: QueuedDirectory, name: string, total: nat, start: Moment, middle: Moment,
                   end: Moment, row: Row, child: Option<QueuedDirectory>, lost: set<nat>)
    requires start == middle.(calls := start.calls, faults := start.faults)
    requires start.calls <= middle.calls && start.faults <= middle.faults
    requires EntrySpent(limits, dir, name, total, middle, end, row, child, lost)
    ensures EntrySpent(limits, dir, name, total, start, end, row, child, lost)
    ensures middle.NoLaterThan(end)
  {
    hide OneMore;
  }

  lemma NotThereIsDone(tree: Tree, limits: Limits, dir: QueuedDirectory, name: string, total: nat,
                       start: Moment, end: Moment)
    requires start.NoLaterThan(end) && end.open == start.open && end.delivered == start.delivered
    requires end.unexamined == start.unexamined && end.at == start.at
    requires dir.fd in start.at && (start.at[dir.fd] + [name] in tree ==> end.faults > start.faults)
    ensures var row := EntryRow(dir.parts + [name], None, None, NotThere);
      EntryDone(tree, limits, dir, name, total, start, end, row, None, {})
  {
    hide IsTree, Faithful, EntryCalm;
    var row := EntryRow(dir.parts + [name], None, None, NotThere);
    if Faithful(tree, end.at, limits.maxDepth, dir) && IsTree(tree) && row.path in tree {
      ThereByName(tree, limits, end.at, dir, name);
    }
  }

  lemma EntryIsDone(tree: Tree, limits: Limits, dir: QueuedDirectory, name: string, total: nat, start: Moment,
                    end: Moment, row: Row, child: Option<QueuedDirectory>, lost: set<nat>, seen: Stat)
    requires EntrySpent(limits, dir, name, total, start, end, row, child, lost)
    requires row.EntryRow? && row.kind == Some(seen.kind) && dir.fd in end.at
    requires end.faults == start.faults && SafeName(name) && end.at[dir.fd] == dir.parts ==> (
      dir.parts + [name] in tree ==> (
        && seen == tree[dir.parts + [name]] && lost == {} && end.delivered == start.delivered + CapturedBytes(row)
        && RowFor(limits, total, seen, row) && ChildOf(limits, dir, name, seen, end.at, child)))
    ensures EntryDone(tree, limits, dir, name, total, start, end, row, child, lost)
  {
    hide IsTree, Faithful, EntryCalm, ChildOf, CapturedBytes, SafeName, OneMore;
    if end.faults == start.faults && Faithful(tree, end.at, limits.maxDepth, dir) && IsTree(tree) && row.path in tree {
      ThereByName(tree, limits, end.at, dir, name);
      EntryIsCalm(tree, limits, dir, name, total, start, end, row, child, lost);
    }
  }

  lemma GrownByItself(at: map<nat, Parts>)
    ensures Grown(at, at)
  {
  }

  lemma SameDirectory(at: map<nat, Parts>, after: map<nat, Parts>, fd: nat)
    requires Grown(at, after) && fd in at
    ensures fd in after && at[fd] == after[fd]
  {
  }

  // ----- one directory ------------------------------------------------------------------------------

  function Fds(queue: seq<QueuedDirectory>): set<nat> {
    set q | q in queue :: q.fd
  }

  function Paths(queue: seq<QueuedDirectory>): seq<Parts> {
    seq(|queue|, i requires 0 <= i < |queue| => queue[i].parts)
  }

  ghost predicate AllFaithful(tree: Tree, at: map<nat, Parts>, maxDepth: nat, queue: seq<QueuedDirectory>) {
    forall q | q in queue :: Faithful(tree, at, maxDepth, q)
  }

  predicate DistinctFds(queue: seq<QueuedDirectory>) {
    forall i, j | 0 <= i < j < |queue| :: queue[i].fd != queue[j].fd
  }

  /** Rows of an undisturbed run: every entry is there with its kind. */
  ghost predicate PlainRows(tree: Tree, rows: seq<Row>) {
    forall row | row in rows ::
      match row
      case EntryRow(path, kind, _, _) => path in tree && kind == Some(tree[path].kind)
      case RootRow(there, problem) => there && problem == NoProblem
      case BoundaryRow => true
      case _ => false
  }

  /** Every name is in the tree under `dir`. */
  ghost predicate AllThere(tree: Tree, dir: Parts, names: seq<string>) {
    forall name | name in names :: IsThere(tree, dir, name)
  }

  ghost predicate IsThere(tree: Tree, dir: Parts, name: string) {
    dir + [name] in tree
  }

  lemma ChildAdded(children: seq<QueuedDirectory>, q: QueuedDirectory)
    ensures Fds(children + [q]) == Fds(children) + {q.fd}
    ensures Paths(children + [q]) == Paths(children) + [q.parts]
    ensures DistinctFds(children) && q.fd !in Fds(children) ==> DistinctFds(children + [q])
  {
  }

  lemma {:induction false} NamesAdded(tree: Tree, maxDepth: nat, dir: Parts, names: seq<string>, name: string)
    ensures Under(dir, names + [name]) == Under(dir, names) + [dir + [name]]
    ensures Queued(tree, maxDepth, dir, names + [name]) ==
      Queued(tree, maxDepth, dir, names) + if IsQueueable(tree, maxDepth, dir + [name]) then [dir + [name]] else []
  {
    if names != [] {
      NamesAdded(tree, maxDepth, dir, names[1..], name);
      assert (names + [name])[1..] == names[1..] + [name];
    } else {
      assert names + [name] == [name] && [name][1..] == [];
    }
  }

  /** The descriptors opened since `before` are those of `children` and the lost ones, all different. */
  ghost predicate Accounted(children: seq<QueuedDirectory>, lost: set<nat>, before: set<nat>, open: set<nat>) {
    && DistinctFds(children) && lost !! Fds(children) && (lost + Fds(children)) !! before
    && open == before + lost + Fds(children)
  }

  /** Rows, queued children and lost descriptors of the names handled so far. */
  ghost predicate Collected(dir: Parts, names: seq<string>, rows: seq<Row>,
                            children: seq<QueuedDirectory>, lost: set<nat>, before: set<nat>, open: set<nat>) {
    && Listed(rows) == Under(dir, names) && (forall row | row in rows :: row.EntryRow?)
    && |lost| == LostCount(rows) && Accounted(children, lost, before, open) && |children| <= |names|
    && Picked(Paths(children), Listed(rows))
  }

  /** The same in an undisturbed run. */
  ghost predicate CollectedCalmly(tree: Tree, maxDepth: nat, dir: Parts, names: seq<string>, rows: seq<Row>,
                                  children: seq<QueuedDirectory>, lost: set<nat>) {
    lost == {} && PlainRows(tree, rows) && Paths(children) == Queued(tree, maxDepth, dir, names)
  }

  lemma CollectedStarts(tree: Tree, maxDepth: nat, dir: Parts, open: set<nat>)
    ensures Collected(dir, [], [], [], {}, open, open) && CollectedCalmly(tree, maxDepth, dir, [], [], [], {})
  {
  }

  /** What one entry adds: perhaps one queued child, perhaps one lost descriptor. */
  ghost predicate OneMore(row: Row, child: Option<QueuedDirectory>, gone: set<nat>, open: set<nat>, after: set<nat>) {
    && row.EntryRow? && gone !! open && |gone| == (if row.problem == IdentityUnreadable then 1 else 0)
    && match child
       case Some(q) => q.fd !in open && after == open + {q.fd} && gone == {} && q.parts == row.path
       case None => after == open + gone
  }

  function WithChild(children: seq<QueuedDirectory>, child: Option<QueuedDirectory>): seq<QueuedDirectory> {
    if child.Some? then children + [child.value] else children
  }

  lemma AccountedChild(children: seq<QueuedDirectory>, lost: set<nat>, before: set<nat>,
                       open: set<nat>, q: QueuedDirectory)
    requires Accounted(children, lost, before, open) && q.fd !in open
    ensures Accounted(children + [q], lost, before, open + {q.fd})
  {
  }

  lemma AccountedLoss(children: seq<QueuedDirectory>, lost: set<nat>, before: set<nat>, open: set<nat>, gone: set<nat>)
    requires Accounted(children, lost, before, open) && gone !! open
    ensures Accounted(children, lost + gone, before, open + gone) && |lost + gone| == |lost| + |gone|
  {
  }

  lemma CollectedGoesOn(dir: Parts, names: seq<string>, rows: seq<Row>, children: seq<QueuedDirectory>,
                        lost: set<nat>, before: set<nat>, open: set<nat>, name: string, row: Row,
                        child: Option<QueuedDirectory>, gone: set<nat>, after: set<nat>)
    requires Collected(dir, names, rows, children, lost, before, open)
    requires OneMore(row, child, gone, open, after) && row.path == dir + [name]
    ensures Collected(dir, names + [name], rows + [row], WithChild(children, child), lost + gone, before, after)
  {
    hide Listed, LostCount, Under, Accounted, Picked, Paths;
    PickedGrows(Paths(children), Listed(rows), row.path);
    match child {
      case Some(q) =>
        ChildAdded(children, q);
        AccountedChild(children, lost, before, open, q);
        assert lost + gone == lost;
      case None =>
        AccountedLoss(children, lost, before, open, gone);
    }
    RowsGrow(rows, row);
    NamesAdded(map[], 0, dir, names, name);
  }

  lemma CollectedCalmlyGoesOn(tree: Tree, maxDepth: nat, dir: Parts, names: seq<string>, rows: seq<Row>,
                              children: seq<QueuedDirectory>, lost: set<nat>, name: string, row: Row,
                              child: Option<QueuedDirectory>)
    requires CollectedCalmly(tree, maxDepth, dir, names, rows, children, lost)
    requires row.EntryRow? && row.path == dir + [name] && row.path in tree && row.kind == Some(tree[row.path].kind)
    requires child.Some? <==> IsQueueable(tree, maxDepth, row.path)
    requires child.Some? ==> child.value.parts == row.path
    ensures CollectedCalmly(tree, maxDepth, dir, names + [name], rows + [row], WithChild(children, child), lost)
  {
    hide Queued, IsQueueable, Paths;
    NamesAdded(tree, maxDepth, dir, names, name);
    if child.Some? {
      ChildAdded(children, child.value);
    }
  }

  /** Nothing has disturbed the visit of `dir` so far. */
  ghost predicate CalmSoFar(tree: Tree, at: map<nat, Parts>, maxDepth: nat, dir: QueuedDirectory,
                            names: seq<string>, rows: seq<Row>, children: seq<QueuedDirectory>, lost: set<nat>) {
    && IsTree(tree) && Faithful(tree, at, maxDepth, dir) && AllFaithful(tree, at, maxDepth, children)
    && CollectedCalmly(tree, maxDepth, dir.parts, names, rows, children, lost)
  }

  lemma CalmStaysCalm(tree: Tree, at: map<nat, Parts>, after: map<nat, Parts>, maxDepth: nat, dir: QueuedDirectory,
                      children: seq<QueuedDirectory>)
    requires Grown(at, after) && Faithful(tree, at, maxDepth, dir) && AllFaithful(tree, at, maxDepth, children)
    ensures Faithful(tree, after, maxDepth, dir) && AllFaithful(tree, after, maxDepth, children)
  {
  }

  /** The kernel's bookkeeping at some moment. */
  datatype Moment = Moment(open: set<nat>, at: map<nat, Parts>, calls: nat, faults: nat,
    unexamined: nat, delivered: nat) {
    ghost predicate NoLaterThan(end: Moment) {
      && calls <= end.calls && faults <= end.faults && unexamined <= end.unexamined && delivered <= end.delivered
      && Grown(at, end.at)
    }
  }

  ghost function Now(k: Kernel): Moment
    reads k
  {
    Moment(k.open, k.at, k.calls, k.faults, k.unexamined, k.delivered)
  }

  /** The visit of `dir`, begun at `start`, has handled `names`. */
  ghost predicate Visiting(k: Kernel, limits: Limits, dir: QueuedDirectory, total: nat,
                           start: Moment, names: seq<string>, rows: seq<Row>,
                           children: seq<QueuedDirectory>, lost: set<nat>)
    reads k
  {
    k.Valid() && dir.fd in k.open && VisitingAt(k.tree, limits, dir, total, start, Now(k), names, rows, children, lost)
  }

  /** The value-level part of Visiting, at the moment `now`. */
  ghost predicate VisitingAt(tree: Tree, limits: Limits, dir: QueuedDirectory, total: nat, start: Moment, now: Moment,
                             names: seq<string>, rows: seq<Row>, children: seq<QueuedDirectory>, lost: set<nat>) {
    && total + TotalCaptured(rows) <= limits.maxTotalBytes
    && start.NoLaterThan(now) && Collected(dir.parts, names, rows, children, lost, start.open, now.open)
    && Spent(limits, start, now, rows, lost)
    && (now.faults == start.faults && CalmThrough(tree, limits, dir, start, names) ==>
      CalmSoFar(tree, now.at, limits.maxDepth, dir, names, rows, children, lost)
      && AsMeant(tree, limits, total, start, now, rows))
  }

  /** Exactly the captured bytes were read, and every entry has its row. */
  ghost predicate AsMeant(tree: Tree, limits: Limits, total: nat, start: Moment, now: Moment, rows: seq<Row>) {
    now.delivered == start.delivered + TotalCaptured(rows) && Meant(tree, limits, total, rows)
  }

  /** Each lost descriptor has its failed call, and the bytes read stay within the bound. */
  ghost predicate Spent(limits: Limits, start: Moment, now: Moment, rows: seq<Row>, lost: set<nat>) {
    |lost| <= now.unexamined - start.unexamined && now.delivered <= start.delivered + ReadBound(rows, limits)
  }

  /** What an undisturbed visit of `dir` may rely on. */
  ghost predicate CalmThrough(tree: Tree, limits: Limits, dir: QueuedDirectory, start: Moment, names: seq<string>) {
    IsTree(tree) && Faithful(tree, start.at, limits.maxDepth, dir) && AllThere(tree, dir.parts, names)
  }

  /** One turn of the loop over the names of a directory. */
  method SnapshotNext(k: Kernel, limits: Limits, dir: QueuedDirectory, total: nat,
                      ghost start: Moment, ghost names: seq<string>, name: string, rows: seq<Row>,
                      children: seq<QueuedDirectory>, ghost lost: set<nat>)
    returns (rows': seq<Row>, children': seq<QueuedDirectory>, ghost lost': set<nat>)
    requires Visiting(k, limits, dir, total, start, names, rows, children, lost)
    modifies k
    ensures Visiting(k, limits, dir, total, start, names + [name], rows', children', lost')
  {
    hide VisitingAt, EntryDone, OnlyStatIsOff, Faulty, CapturedBytes, IsTree, Faithful, IsQueueable;
    var row, child;
    ghost var gone, before := {}, Now(k);
    row, child, gone := SnapshotEntry(k, limits, dir, name, total + TotalCaptured(rows));
    rows', children', lost' := rows + [row], WithChild(children, child), lost + gone;
    VisitGoesOn(k.tree, limits, dir, total, start, before, Now(k), names, name, rows, children, lost, row, child, gone);
  }

  lemma VisitGoesOn(tree: Tree, limits: Limits, dir: QueuedDirectory, total: nat, start: Moment,
                    before: Moment, now: Moment, names: seq<string>, name: string, rows: seq<Row>,
                    children: seq<QueuedDirectory>, lost: set<nat>, row: Row,
                    child: Option<QueuedDirectory>, gone: set<nat>)
    requires VisitingAt(tree, limits, dir, total, start, before, names, rows, children, lost)
    requires EntryDone(tree, limits, dir, name, total + TotalCaptured(rows), before, now, row, child, gone)
    ensures VisitingAt(tree, limits, dir, total, start, now, names + [name], rows + [row],
      WithChild(children, child), lost + gone)
  {
    hide Faithful, AllFaithful, Collected, CollectedCalmly, IsTree, ReadBound, TotalCaptured, CapturedBytes,
      IsFailedRead, IsQueueable, Grown, CalmSoFar;
    var calm := CalmThrough(tree, limits, dir, start, names + [name]);
    NamesGrow(tree, dir.parts, names, name);
    GrownTwice(start.at, before.at, now.at);
    RowsGrow(rows, row);
    ReadBoundGrows(rows, row, limits);
    LossesAdd(lost, gone);
    CollectedGoesOn(dir.parts, names, rows, children, lost, start.open, before.open, name, row, child, gone, now.open);
    if calm && now.faults == start.faults {
      StillFaithful(tree, start.at, now.at, limits.maxDepth, dir);
      CalmGoesOn(tree, before.at, now.at, limits.maxDepth, dir, names, rows, children, lost, name, row, child, gone);
      MeantGrows(tree, limits, total, rows, row);
    }
  }

  lemma GrownTwice(a: map<nat, Parts>, b: map<nat, Parts>, c: map<nat, Parts>)
    requires Grown(a, b) && Grown(b, c)
    ensures Grown(a, c)
  {
  }

  lemma StillFaithful(tree: Tree, at: map<nat, Parts>, after: map<nat, Parts>, maxDepth: nat, dir: QueuedDirectory)
    requires Grown(at, after) && Faithful(tree, at, maxDepth, dir)
    ensures Faithful(tree, after, maxDepth, dir)
  {
  }

  lemma LossesAdd(lost: set<nat>, gone: set<nat>)
    ensures |lost + gone| <= |lost| + |gone|
  {
    assert |lost + gone| == |lost| + |gone - lost|;
    assert |gone| == |gone - lost| + |gone * lost| by { assert gone == (gone - lost) + (gone * lost); }
    assert lost + gone == lost + (gone - lost);
  }

  lemma NamesGrow(tree: Tree, dir: Parts, names: seq<string>, name: string)
    ensures AllThere(tree, dir, names + [name]) <==> AllThere(tree, dir, names) && IsThere(tree, dir, name)
  {
  }

  lemma CalmGoesOn(tree: Tree, at: map<nat, Parts>, after: map<nat, Parts>, maxDepth: nat,
                   dir: QueuedDirectory, names: seq<string>, rows: seq<Row>, children: seq<QueuedDirectory>,
                   lost: set<nat>, name: string, row: Row, child: Option<QueuedDirectory>, gone: set<nat>)
    requires CalmSoFar(tree, at, maxDepth, dir, names, rows, children, lost) && Grown(at, after)
    requires row.EntryRow? && row.path == dir.parts + [name] && row.path in tree
      && row.kind == Some(tree[row.path].kind) && gone == {}
    requires child.Some? <==> IsQueueable(tree, maxDepth, row.path)
    requires child.Some? ==> Faithful(tree, after, maxDepth, child.value) && child.value.parts == row.path
    ensures CalmSoFar(tree, after, maxDepth, dir, names + [name], rows + [row], WithChild(children, child), lost + gone)
  {
    CalmStaysCalm(tree, at, after, maxDepth, dir, children);
    CollectedCalmlyGoesOn(tree, maxDepth, dir.parts, names, rows, children, lost, name, row, child);
    hide Faithful, CollectedCalmly, IsQueueable;
    assert lost + gone == lost;
  }

  lemma VisitStarts(k: Kernel, limits: Limits, dir: QueuedDirectory, total: nat)
    requires k.Valid() && dir.fd in k.open && total <= limits.maxTotalBytes
    ensures Visiting(k, limits, dir, total, Now(k), [], [], [], {})
  {
    hide Collected, CollectedCalmly, Faulty;
    CollectedStarts(k.tree, limits.maxDepth, dir.parts, k.open);
    NothingListed(limits);
  }

  /** The loop over the sorted names of one directory. */
  method SnapshotNames(k: Kernel, limits: Limits, dir: QueuedDirectory, names: seq<string>, total: nat)
    returns (rows: seq<Row>, children: seq<QueuedDirectory>, ghost lost: set<nat>)
    requires k.Valid() && dir.fd in k.open && total <= limits.maxTotalBytes
    modifies k
    ensures Visiting(k, limits, dir, total, old(Now(k)), names, rows, children, lost)
  {
    hide Visiting;
    rows, children, lost := [], [], {};
    ghost var start := Now(k);
    VisitStarts(k, limits, dir, total);
    assert names[..0] == [];
    for i := 0 to |names|
      invariant Visiting(k, limits, dir, total, start, names[..i], rows, children, lost)
    {
      assert names[..i + 1] == names[..i] + [names[i]];
      rows, children, lost := SnapshotNext(k, limits, dir, total, start, names[..i], names[i], rows, children, lost);
    }
    assert names[..|names|] == names;
  }

  lemma {:induction false} RowsAppend(a: seq<Row>, b: seq<Row>)
    ensures TotalCaptured(a + b) == TotalCaptured(a) + TotalCaptured(b)
    ensures Listed(a + b) == Listed(a) + Listed(b)
    ensures LostCount(a + b) == LostCount(a) + LostCount(b)
    ensures FailedReads(a + b) == FailedReads(a) + FailedReads(b)
  {
    if b == [] {
      assert a + b == a;
    } else {
      var front, last := b[..|b| - 1], b[|b| - 1];
      assert b == front + [last] && a + b == (a + front) + [last];
      RowsAppend(a, front);
      RowsGrow(a + front, last);
      RowsGrow(front, last);
    }
  }

  /** What an undisturbed visit of `dir` adds to the walk. */
  ghost predicate Visited(tree: Tree, at: map<nat, Parts>, limits: Limits, dir: Parts, enumerated: nat, rows: seq<Row>,
                          children: seq<QueuedDirectory>, overflow: bool, names: seq<string>, found: seq<string>) {
    && PlainRows(tree, rows) && AllFaithful(tree, at, limits.maxDepth, children)
    && Distinct(names) && Listed(rows) == Under(dir, names)
    && Paths(children) == Queued(tree, limits.maxDepth, dir, names)
    && (forall name | name in names :: name in found)
    && (!overflow ==> forall name :: name in names <==> name in Children(tree, dir))
    && (overflow ==>
          (enumerated + |names| == limits.maxEntries && |found| == |names| + 1
           && Distinct(found) && forall name | name in found :: name in Children(tree, dir)))
  }

  /** The names that fit the budget, sorted. */
  method ChooseNames(found: seq<string>, remaining: nat) returns (names: seq<string>)
    requires Distinct(found)
    ensures Distinct(names) && |names| == (if |found| > remaining then remaining else |found|)
    ensures Increasing(StringLess, names)
    ensures forall name | name in names :: name in found
    ensures |found| <= remaining ==> forall name | name in found :: name in names
  {
    var kept := if |found| > remaining then found[..remaining] else found;
    StringOrder();
    hide StringLess;
    DistinctCount(kept);
    SortedIsSet(StringLess, set name | name in kept);
    names := Sorted(StringLess, set name | name in kept);
  }

  /** Names of the directory; all of them, if no more than `remaining` came back. */
  ghost predicate Lists(tree: Tree, dir: Parts, found: seq<string>, remaining: nat) {
    && (forall name | name in found :: name in Children(tree, dir))
    && (|found| <= remaining ==> forall name | name in Children(tree, dir) :: name in found)
  }

  lemma ChildrenAreThere(tree: Tree, dir: Parts, found: seq<string>, remaining: nat, names: seq<string>)
    requires Lists(tree, dir, found, remaining) && forall name | name in names :: name in found
    ensures AllThere(tree, dir, names)
  {
    forall name | name in names
      ensures IsThere(tree, dir, name)
    {
      var p :| p in tree && p != [] && Parent(p) == dir && p[|p| - 1] == name;
      assert p == dir + [name];
    }
  }

  lemma CollectedSums(dir: Parts, names: seq<string>, rows: seq<Row>, children: seq<QueuedDirectory>, lost: set<nat>,
                      before: set<nat>, open: set<nat>)
    requires Collected(dir, names, rows, children, lost, before, open)
    ensures Listed(rows) == Under(dir, names) && |children| <= |Listed(rows)| && BoundaryRow !in rows
    ensures NoQueueRow(rows) && NoQueueRow(rows + [BoundaryRow])
    ensures |lost| == LostCount(rows) && Accounted(children, lost, before, open)
    ensures Picked(Paths(children), Listed(rows)) && InPlace(rows) && InPlace(rows + [BoundaryRow])
    ensures var rows' := rows + [BoundaryRow];
      Listed(rows') == Listed(rows) && LostCount(rows') == LostCount(rows)
        && TotalCaptured(rows') == TotalCaptured(rows)
  {
    hide Picked, Paths;
    assert forall i | 0 <= i < |rows| :: rows[i] in rows && rows[i].EntryRow?;
  }

  /** No row of the root, and the row of the bound only at the end. */
  predicate InPlace(rows: seq<Row>) {
    forall i | 0 <= i < |rows| :: !rows[i].RootRow? && (rows[i].BoundaryRow? ==> i == |rows| - 1)
  }

  lemma BoundaryIsPlain(tree: Tree, rows: seq<Row>)
    requires PlainRows(tree, rows)
    ensures PlainRows(tree, rows + [BoundaryRow])
  {
  }

  lemma CalmVisit(tree: Tree, at: map<nat, Parts>, limits: Limits, dir: QueuedDirectory, enumerated: nat,
                  rows: seq<Row>, children: seq<QueuedDirectory>, lost: set<nat>,
                  names: seq<string>, found: seq<string>)
    requires CalmSoFar(tree, at, limits.maxDepth, dir, names, rows, children, lost)
    requires Listed(rows) == Under(dir.parts, names) && Distinct(names) && Distinct(found)
      && enumerated <= limits.maxEntries
    requires forall name | name in names :: name in found
    requires forall name | name in found :: name in Children(tree, dir.parts)
    requires if enumerated + |found| > limits.maxEntries
      then |found| == limits.maxEntries - enumerated + 1 && |names| == limits.maxEntries - enumerated
      else forall name | name in Children(tree, dir.parts) :: name in found && name in names
    ensures lost == {}
    ensures var overflow := enumerated + |found| > limits.maxEntries;
      Visited(tree, at, limits, dir.parts, enumerated, if overflow then rows + [BoundaryRow] else rows,
        children, overflow, names, found)
  {
    hide IsTree, Under, Queued, AllFaithful, Faithful, Children, Paths, Listed, PlainRows, Distinct;
    RowsGrow(rows, BoundaryRow);
    assert Listed(rows) + [] == Listed(rows);
    BoundaryIsPlain(tree, rows);
  }

  /** verify_queued_directory and the bounded scandir loop: at most one name more than fits. */
  method ListDirectory(k: Kernel, rootFd: nat, dir: QueuedDirectory, remaining: nat)
    returns (problem: seq<Row>, found: seq<string>)
    requires k.Valid() && dir.fd in k.open && rootFd in k.open
    modifies k
    ensures k.Valid() && k.Keeps() && k.open == old(k.open) && k.delivered == old(k.delivered)
    ensures problem in {[], [QueueRow(dir.parts)], [EnumerationRow(dir.parts)]}
    ensures problem == [QueueRow(dir.parts)]
      <==> !StillPinned(k.tree, k.script, old(k.calls), old(k.at), rootFd, dir)
    ensures Distinct(found) && |found| <= remaining + 1
    ensures k.faults == old(k.faults) && Pinned(k.tree, k.at, dir) && IsTree(k.tree) && k.at[rootFd] == [] ==>
      problem == [] && Lists(k.tree, dir.parts, found, remaining)
  {
    problem, found := [], [];
    var ok := VerifyQueuedDirectory(k, rootFd, dir);
    if !ok { return [QueueRow(dir.parts)], []; }
    ok, found := k.Scandir(dir.fd, remaining + 1);
    if !ok { return [EnumerationRow(dir.parts)], []; }
  }

  /** The outcome of one turn of the queue loop that found `start`: what was opened and lost,
      that the budgets hold, and in an undisturbed run what was listed. */
  ghost predicate DirectoryDone(tree: Tree, limits: Limits, dir: QueuedDirectory, enumerated: nat, total: nat,
                                start: Moment, end: Moment, rows: seq<Row>, children: seq<QueuedDirectory>,
                                overflow: bool, lost: set<nat>, calm: bool, names: seq<string>, found: seq<string>) {
    && Accounted(children, lost, start.open, end.open + {dir.fd}) && dir.fd !in end.open && |lost| == LostCount(rows)
    && total + TotalCaptured(rows) <= limits.maxTotalBytes
    && enumerated + |Listed(rows)| <= limits.maxEntries && |children| <= |Listed(rows)|
    && (overflow <==> BoundaryRow in rows) && InPlace(rows)
    && InNameOrder(dir.parts, names, rows, children)
    && |lost| <= end.unexamined - start.unexamined && end.delivered <= start.delivered + ReadBound(rows, limits)
    && (calm ==>
      Visited(tree, end.at, limits, dir.parts, enumerated, rows, children, overflow, names, found) && lost == {}
      && AsMeant(tree, limits, total, start, end, rows))
  }

  /** The entries of a directory are listed by name, and its children are queued in that order. */
  ghost predicate InNameOrder(dir: Parts, names: seq<string>, rows: seq<Row>, children: seq<QueuedDirectory>) {
    && Increasing(StringLess, names) && Listed(rows) == Under(dir, names)
    && Picked(Paths(children), Listed(rows))
  }

  lemma RefusedIsDone(tree: Tree, limits: Limits, dir: QueuedDirectory, enumerated: nat, total: nat, start: Moment,
                      end: Moment, rows: seq<Row>)
    requires rows == [QueueRow(dir.parts)] || rows == [EnumerationRow(dir.parts)]
    requires dir.fd in start.open && end.open == start.open - {dir.fd}
    requires start.unexamined <= end.unexamined && start.delivered == end.delivered
    requires enumerated <= limits.maxEntries && total <= limits.maxTotalBytes
    ensures DirectoryDone(tree, limits, dir, enumerated, total, start, end, rows, [], false, {}, false, [], [])
  {
  }

  lemma BoundaryReadsNothing(rows: seq<Row>, limits: Limits)
    ensures ReadBound(rows + [BoundaryRow], limits) == ReadBound(rows, limits)
    ensures TotalCaptured(rows + [BoundaryRow]) == TotalCaptured(rows)
    ensures forall tree, total | Meant(tree, limits, total, rows) :: Meant(tree, limits, total, rows + [BoundaryRow])
  {
    assert (rows + [BoundaryRow])[..|rows|] == rows;
    ReadBoundGrows(rows, BoundaryRow, limits);
    RowsGrow(rows, BoundaryRow);
  }

  predicate NoQueueRow(rows: seq<Row>) {
    forall row | row in rows :: !row.QueueRow?
  }

  lemma VisitIsDone(tree: Tree, limits: Limits, dir: QueuedDirectory, enumerated: nat, total: nat, start: Moment,
                    listed: Moment, end: Moment, rows: seq<Row>, children: seq<QueuedDirectory>, lost: set<nat>,
                    calm: bool, names: seq<string>, found: seq<string>)
    requires Collected(dir.parts, names, rows, children, lost, start.open, listed.open)
      && total + TotalCaptured(rows) <= limits.maxTotalBytes
    requires dir.fd in start.open && end == listed.(open := listed.open - {dir.fd})
    requires |lost| <= end.unexamined - start.unexamined && end.delivered <= start.delivered + ReadBound(rows, limits)
    requires calm ==> AsMeant(tree, limits, total, start, end, rows)
    requires Increasing(StringLess, names)
    requires enumerated <= limits.maxEntries && enumerated + |names| <= limits.maxEntries
    requires calm ==> CalmSoFar(tree, end.at, limits.maxDepth, dir, names, rows, children, lost)
    requires calm ==> Lists(tree, dir.parts, found, limits.maxEntries - enumerated)
    requires Distinct(names) && Distinct(found) && |found| <= limits.maxEntries - enumerated + 1
    requires |names| == if enumerated + |found| > limits.maxEntries then limits.maxEntries - enumerated else |found|
    requires forall name | name in names :: name in found
    requires enumerated + |found| <= limits.maxEntries ==> forall name | name in found :: name in names
    ensures NoQueueRow(rows) && NoQueueRow(rows + [BoundaryRow])
    ensures var overflow := enumerated + |found| > limits.maxEntries;
      DirectoryDone(tree, limits, dir, enumerated, total, start, end, if overflow then rows + [BoundaryRow] else rows,
                    children, overflow, lost, calm, names, found)
  {
    hide Collected, CalmSoFar, Visited, Children, TotalCaptured, Listed, LostCount, ReadBound, CapturedBytes,
      NoQueueRow, Picked, Paths, Under, Meant, InPlace, StringLess;
    BoundaryReadsNothing(rows, limits);
    CollectedSums(dir.parts, names, rows, children, lost, start.open, listed.open);
    assert dir.fd in listed.open && end.open + {dir.fd} == listed.open;
    if calm {
      CalmVisit(tree, end.at, limits, dir, enumerated, rows, children, lost, names, found);
    }
  }

  /** The part of the turn after the listing came back. */
  method VisitListed(k: Kernel, limits: Limits, dir: QueuedDirectory, enumerated: nat, total: nat,
                     listing: seq<string>, ghost hopeful: bool)
    returns (rows: seq<Row>, children: seq<QueuedDirectory>, overflow: bool,
      ghost lost: set<nat>, ghost names: seq<string>)
    requires k.Valid() && dir.fd in k.open && enumerated <= limits.maxEntries && total <= limits.maxTotalBytes
    requires Distinct(listing) && |listing| <= limits.maxEntries - enumerated + 1
    requires hopeful ==> IsTree(k.tree) && Faithful(k.tree, k.at, limits.maxDepth, dir)
    requires hopeful ==> Lists(k.tree, dir.parts, listing, limits.maxEntries - enumerated)
    modifies k
    ensures k.Valid() && k.Keeps() && NoQueueRow(rows)
    ensures DirectoryDone(k.tree, limits, dir, enumerated, total, old(Now(k)), Now(k), rows, children, overflow, lost,
                          hopeful && k.faults == old(k.faults), names, listing)
  {
    hide DirectoryDone, IsTree, CalmSoFar, Faithful, Collected, AllThere, Distinct, Lists;
    var remaining := limits.maxEntries - enumerated;
    overflow := |listing| > remaining;
    var chosen := ChooseNames(listing, remaining);
    names := chosen;
    if hopeful {
      ChildrenAreThere(k.tree, dir.parts, listing, remaining, chosen);
    }
    rows, children, lost := SnapshotNames(k, limits, dir, chosen, total);
    ghost var listed := Now(k);
    k.Close(dir.fd);
    VisitIsDone(k.tree, limits, dir, enumerated, total, old(Now(k)), listed, Now(k), rows, children, lost,
                hopeful && k.faults == old(k.faults), names, listing);
    if overflow {
      rows := rows + [BoundaryRow];
    }
  }

  lemma DoneSince(tree: Tree, limits: Limits, dir: QueuedDirectory, enumerated: nat, total: nat, start: Moment,
                  begun: Moment, end: Moment, rows: seq<Row>, children: seq<QueuedDirectory>, overflow: bool,
                  lost: set<nat>, calm: bool, less: bool, names: seq<string>, found: seq<string>)
    requires DirectoryDone(tree, limits, dir, enumerated, total, begun, end, rows, children,
      overflow, lost, calm, names, found)
    requires begun.open == start.open && (less ==> calm) && begun.delivered == start.delivered
      && start.unexamined <= begun.unexamined
    ensures DirectoryDone(tree, limits, dir, enumerated, total, start, end, rows, children,
      overflow, lost, less, names, found)
  {
  }

  /** One turn of the queue loop; the directory's descriptor is closed on every way out.  It is
      listed only if its descriptor and its path both still have the recorded identity. */
  method SnapshotDirectory(k: Kernel, limits: Limits, rootFd: nat, dir: QueuedDirectory, enumerated: nat,
                           total: nat, ghost hopeful: bool)
    returns (rows: seq<Row>, children: seq<QueuedDirectory>, overflow: bool, ghost lost: set<nat>,
      ghost names: seq<string>, ghost found: seq<string>)
    requires k.Valid() && dir.fd in k.open && rootFd in k.open && dir.fd != rootFd
    requires enumerated <= limits.maxEntries && total <= limits.maxTotalBytes
    requires hopeful ==> IsTree(k.tree) && Faithful(k.tree, k.at, limits.maxDepth, dir) && k.at[rootFd] == []
    modifies k
    ensures k.Valid() && k.Keeps()
    ensures if StillPinned(k.tree, k.script, old(k.calls), old(k.at), rootFd, dir) then NoQueueRow(rows)
      else rows == [QueueRow(dir.parts)] && children == []
    ensures DirectoryDone(k.tree, limits, dir, enumerated, total, old(Now(k)), Now(k), rows, children, overflow, lost,
                          hopeful && k.faults == old(k.faults), names, found)
  {
    ghost var start := Now(k);
    hide DirectoryDone, IsTree, Distinct, Lists;
    var listing;
    rows, listing := ListDirectory(k, rootFd, dir, limits.maxEntries - enumerated);
    if rows != [] {
      k.Close(dir.fd);
      RefusedIsDone(k.tree, limits, dir, enumerated, total, start, Now(k), rows);
      return rows, [], false, {}, [], [];
    }
    ghost var begun, steady := Now(k), hopeful && k.faults == start.faults;
    rows, children, overflow, lost, names := VisitListed(k, limits, dir, enumerated, total, listing, steady);
    found := listing;
    DoneSince(k.tree, limits, dir, enumerated, total, start, begun, Now(k), rows, children, overflow, lost,
              steady && k.faults == begun.faults, hopeful && k.faults == start.faults, names, found);
  }

  // ----- the whole snapshot ---------------------------------------------------------------------------

  method CloseAll(k: Kernel, pending: seq<QueuedDirectory>)
    requires k.Valid() && DistinctFds(pending) && Fds(pending) <= k.open
    modifies k`open
    ensures k.Valid() && k.open == old(k.open) - Fds(pending)
  {
    for i := 0 to |pending|
      invariant k.Valid()
      invariant k.open == old(k.open) - Fds(pending[..i])
    {
      ChildAdded(pending[..i], pending[i]);
      assert pending[..i + 1] == pending[..i] + [pending[i]];
      assert pending[i].fd !in Fds(pending[..i]) && pending[i] in pending;
      k.Close(pending[i].fd);
    }
    assert pending[..|pending|] == pending;
  }

  /** Between two turns of the queue loop that began at `start`; `done` are the directories
      already expanded. */
  ghost predicate Snapshotting(k: Kernel, limits: Limits, rootFd: nat, start: Moment, hopeful: bool, rows: seq<Row>,
                               pending: seq<QueuedDirectory>, lost: set<nat>, done: set<Parts>)
    reads k
  {
    k.Valid() && SnapshottingAt(k.tree, limits, rootFd, start, Now(k), hopeful, rows, pending, lost, done)
  }

  ghost predicate CalmWalk(tree: Tree, at: map<nat, Parts>, limits: Limits, rootFd: nat, rows: seq<Row>,
                           pending: seq<QueuedDirectory>, lost: set<nat>, done: set<Parts>) {
    && IsTree(tree) && rootFd in at && at[rootFd] == [] && AllFaithful(tree, at, limits.maxDepth, pending)
    && lost == {} && PlainRows(tree, rows) && Walk(tree, limits.maxDepth, Listed(rows), Paths(pending), done)
  }

  /** The root's row first, the row of the bound only at the end, and the entries breadth first
      and by name: in every run. */
  ghost predicate Orderly(rows: seq<Row>) {
    rows != [] && rows[0].RootRow? && InPlace(rows[1..]) && Increasing(PathLess, Listed(rows))
  }

  lemma OrderlyGoesOn(rows: seq<Row>, pending: seq<QueuedDirectory>, more: seq<Row>, names: seq<string>,
                      children: seq<QueuedDirectory>)
    requires Orderly(rows) && BoundaryRow !in rows && InOrder(Listed(rows), Paths(pending)) && pending != []
    requires InPlace(more) && InNameOrder(pending[0].parts, names, more, children)
    ensures Orderly(rows + more) && InOrder(Listed(rows + more), Paths(pending[1..] + children))
  {
    hide Listed, Under, Paths, Picked, PathLess, StringLess;
    RowsAppend(rows, more);
    PathsStart(pending);
    QueuesAppend(pending[1..], children);
    OrderGoesOn(Listed(rows), Paths(pending), names, Paths(children));
    var all := rows + more;
    assert all[1..] == rows[1..] + more;
    assert forall i | 0 <= i < |rows[1..]| :: rows[1..][i] in rows;
  }

  lemma FirstPending(pending: seq<QueuedDirectory>, lost: set<nat>, before: set<nat>, open: set<nat>)
    requires Accounted(pending, lost, before, open) && pending != []
    ensures Accounted(pending[1..], lost, before, open - {pending[0].fd})
    ensures pending[0].fd in open && pending[0].fd !in before
  {
  }

  lemma QueuesAppend(a: seq<QueuedDirectory>, b: seq<QueuedDirectory>)
    ensures Fds(a + b) == Fds(a) + Fds(b) && Paths(a + b) == Paths(a) + Paths(b)
    ensures DistinctFds(a) && DistinctFds(b) && Fds(a) !! Fds(b) ==> DistinctFds(a + b)
  {
    assert forall i | 0 <= i < |a| :: a[i] in a && a[i].fd in Fds(a);
    assert forall i | 0 <= i < |b| :: b[i] in b && b[i].fd in Fds(b);
    assert forall q | q in a :: q in a + b;
    assert forall q | q in b :: q in a + b;
  }

  lemma AccountedAppend(rest: seq<QueuedDirectory>, lost: set<nat>, before: set<nat>, open: set<nat>,
                        children: seq<QueuedDirectory>, gone: set<nat>, after: set<nat>)
    requires Accounted(rest, lost, before, open) && Accounted(children, gone, open, after)
    ensures Accounted(rest + children, lost + gone, before, after) && |lost + gone| == |lost| + |gone|
  {
    QueuesAppend(rest, children);
    hide Fds, DistinctFds;
    assert lost !! gone;
    assert after == before + (lost + gone) + (Fds(rest) + Fds(children));
  }

  lemma FaithfulTogether(tree: Tree, at: map<nat, Parts>, after: map<nat, Parts>, maxDepth: nat,
                         pending: seq<QueuedDirectory>, children: seq<QueuedDirectory>)
    requires AllFaithful(tree, at, maxDepth, pending) && Grown(at, after)
      && AllFaithful(tree, after, maxDepth, children)
    ensures pending != [] ==> AllFaithful(tree, after, maxDepth, pending[1..] + children)
  {
    if pending != [] {
      assert forall q | q in pending[1..] + children :: q in pending || q in children;
    }
  }

  lemma WalkGoesOn(tree: Tree, at: map<nat, Parts>, after: map<nat, Parts>, limits: Limits, rootFd: nat, rows: seq<Row>,
                   pending: seq<QueuedDirectory>, done: set<Parts>, more: seq<Row>, children: seq<QueuedDirectory>,
                   names: seq<string>, found: seq<string>)
    requires CalmWalk(tree, at, limits, rootFd, rows, pending, {}, done) && pending != [] && Grown(at, after)
    requires Visited(tree, after, limits, pending[0].parts, |Listed(rows)|, more, children, false, names, found)
    ensures CalmWalk(tree, after, limits, rootFd, rows + more, pending[1..] + children, {}, done + {pending[0].parts})
  {
    hide Walk, Listed, IsTree, Children, Distinct, Under, Queued, Paths, AllFaithful;
    var dir := pending[0].parts;
    RowsAppend(rows, more);
    PathsStart(pending);
    QueuesAppend(pending[1..], children);
    FaithfulTogether(tree, at, after, limits.maxDepth, pending, children);
    WalkExpands(tree, limits.maxDepth, Listed(rows), Paths(pending), done, names);
  }

  /** The rows of an undisturbed run: every entry within the bounds once, or as many as the
      budget allows and the boundary row. */
  ghost predicate ListsTree(tree: Tree, limits: Limits, rows: seq<Row>) {
    var target := Target(tree, limits.maxDepth);
    && Distinct(Listed(rows)) && PlainRows(tree, rows)
    && (forall p | p in Listed(rows) :: p in target)
    && (BoundaryRow in rows <==> |target| > limits.maxEntries)
    && (if BoundaryRow in rows then |Listed(rows)| == limits.maxEntries
        else forall p | p in target :: p in Listed(rows))
  }

  lemma PathsStart(pending: seq<QueuedDirectory>)
    requires pending != []
    ensures Paths(pending) != [] && Paths(pending)[0] == pending[0].parts && Paths(pending)[1..] == Paths(pending[1..])
  {
  }

  lemma WalkIsCutOff(tree: Tree, at: map<nat, Parts>, after: map<nat, Parts>, limits: Limits,
                     rootFd: nat, rows: seq<Row>, pending: seq<QueuedDirectory>, done: set<Parts>, more: seq<Row>,
                     children: seq<QueuedDirectory>, names: seq<string>, found: seq<string>)
    requires CalmWalk(tree, at, limits, rootFd, rows, pending, {}, done) && pending != []
    requires Visited(tree, after, limits, pending[0].parts, |Listed(rows)|, more, children, true, names, found)
    requires BoundaryRow in more
    ensures ListsTree(tree, limits, rows + more)
  {
    hide Listed, IsTree, Children, Walk, Target, Under, Queued, Paths, AllFaithful, Distinct;
    RowsAppend(rows, more);
    PathsStart(pending);
    WalkOverflows(tree, limits.maxDepth, Listed(rows), Paths(pending), done, names);
    WalkOverflows(tree, limits.maxDepth, Listed(rows), Paths(pending), done, found);
    assert BoundaryRow in rows + more;
  }

  lemma WalkIsComplete(tree: Tree, at: map<nat, Parts>, limits: Limits, rootFd: nat, rows: seq<Row>, done: set<Parts>)
    requires CalmWalk(tree, at, limits, rootFd, rows, [], {}, done) && BoundaryRow !in rows
      && |Listed(rows)| <= limits.maxEntries
    ensures ListsTree(tree, limits, rows)
  {
    assert Paths([]) == [];
    hide Listed, IsTree, Target;
    WalkEnds(tree, limits.maxDepth, Listed(rows), done);
    assert forall p | p in Target(tree, limits.maxDepth) :: p in set q | q in Listed(rows);
    assert forall p | p in Listed(rows) :: p in set q | q in Listed(rows);
  }

  lemma SnapshotGoesOn(tree: Tree, limits: Limits, rootFd: nat, rows: seq<Row>,
                       pending: seq<QueuedDirectory>, lost: set<nat>, done: set<Parts>, before: set<nat>, start: Moment,
                       end: Moment, more: seq<Row>, children: seq<QueuedDirectory>, overflow: bool, gone: set<nat>,
                       calm: bool, names: seq<string>, found: seq<string>)
    requires pending != [] && Accounted(pending, lost, before, start.open)
      && |lost| == LostCount(rows) && BoundaryRow !in rows
    requires calm ==> Meant(tree, limits, 0, rows)
    requires DirectoryDone(tree, limits, pending[0], |Listed(rows)|, TotalCaptured(rows), start, end,
      more, children, overflow, gone, calm, names, found)
    requires Grown(start.at, end.at) && (calm ==> CalmWalk(tree, start.at, limits, rootFd, rows, pending, lost, done))
    ensures |lost + gone| <= |lost| + end.unexamined - start.unexamined
    ensures end.delivered <= start.delivered + ReadBound(rows + more, limits) - ReadBound(rows, limits)
    ensures calm ==> end.delivered == start.delivered + TotalCaptured(rows + more) - TotalCaptured(rows)
    ensures calm ==> Meant(tree, limits, 0, rows + more)
    ensures Accounted(pending[1..] + children, lost + gone, before, end.open) && |lost + gone| == LostCount(rows + more)
    ensures |Listed(rows + more)| <= limits.maxEntries && TotalCaptured(rows + more) <= limits.maxTotalBytes
    ensures BoundaryRow in rows + more <==> overflow
    ensures |Listed(rows + more)| - |pending[1..] + children| >= |Listed(rows)| - |pending| + 1
    ensures calm && !overflow ==>
      CalmWalk(tree, end.at, limits, rootFd, rows + more, pending[1..] + children, lost + gone,
        done + {pending[0].parts})
    ensures calm && overflow ==> ListsTree(tree, limits, rows + more) && lost + gone == {}
  {
    hide Visited, ListsTree, CalmWalk, Accounted, Listed, LostCount, TotalCaptured, Grown, ReadBound, Meant,
      InNameOrder, InPlace;
    var q := pending[0];
    RowsAppend(rows, more);
    ReadBoundAppend(rows, more, limits);
    FirstPending(pending, lost, before, start.open);
    AccountedMinus(children, gone, start.open, end.open, q.fd);
    AccountedAppend(pending[1..], lost, before, start.open - {q.fd}, children, gone, end.open);
    if calm {
      MeantAppend(tree, limits, 0, rows, more);
      CalmHasNoLoss(tree, start.at, limits, rootFd, rows, pending, lost, done);
      if overflow {
        WalkIsCutOff(tree, start.at, end.at, limits, rootFd, rows, pending, done, more, children, names, found);
      } else {
        WalkGoesOn(tree, start.at, end.at, limits, rootFd, rows, pending, done, more, children, names, found);
      }
    }
  }

  lemma DoneInOrder(tree: Tree, limits: Limits, dir: QueuedDirectory, enumerated: nat, total: nat, start: Moment,
                    end: Moment, rows: seq<Row>, children: seq<QueuedDirectory>, overflow: bool, lost: set<nat>,
                    calm: bool, names: seq<string>, found: seq<string>)
    requires DirectoryDone(tree, limits, dir, enumerated, total, start, end, rows, children, overflow, lost, calm,
      names, found)
    ensures InPlace(rows) && InNameOrder(dir.parts, names, rows, children)
  {
    hide InPlace, InNameOrder, Visited, Accounted, Listed, LostCount, TotalCaptured, ReadBound;
  }

  lemma CalmHasNoLoss(tree: Tree, at: map<nat, Parts>, limits: Limits, rootFd: nat, rows: seq<Row>,
                      pending: seq<QueuedDirectory>, lost: set<nat>, done: set<Parts>)
    requires CalmWalk(tree, at, limits, rootFd, rows, pending, lost, done)
    ensures lost == {}
  {
  }

  lemma AccountedMinus(children: seq<QueuedDirectory>, gone: set<nat>, before: set<nat>, open: set<nat>, fd: nat)
    requires Accounted(children, gone, before, open + {fd}) && fd in before && fd !in open
    ensures Accounted(children, gone, before - {fd}, open)
  {
  }

  /** Opening the root: either a finished answer, or a pinned root and the first queue entry.
      `raised` stands for an exception that escapes; the root descriptor is then lost.  That
      happens exactly when the new descriptor cannot be examined or duplicated. */
  method OpenRoot(k: Kernel, limits: Limits, ghost hopeful: bool)
    returns (rows: seq<Row>, raised: bool, rootFd: nat, pending: seq<QueuedDirectory>, ghost lost: set<nat>)
    requires k.Valid() && (hopeful ==> IsTree(k.tree))
    modifies k
    ensures k.Valid() && k.Keeps() && k.delivered == old(k.delivered)
    ensures Listed(rows) == [] && TotalCaptured(rows) == 0 && LostCount(rows) == 0
      && FailedReads(rows) == 0 && BoundaryRow !in rows
    ensures lost !! old(k.open) && |lost| == if raised then 1 else 0
    ensures k.unexamined == old(k.unexamined) + if raised then 1 else 0
    ensures raised <==> FailsAtRoot(k.tree, k.script, old(k.calls))
    ensures pending == [] ==> k.open == old(k.open) + lost
    ensures pending != [] ==>
      rootFd !in old(k.open) && rootFd in k.open && lost == {} && Accounted(pending, {}, old(k.open) + {rootFd}, k.open)
    ensures !raised ==> Orderly(rows)
    ensures pending != [] ==> Paths(pending) == [[]] && rows == [RootRow(true, NoProblem)] && !raised
    ensures hopeful && k.faults == old(k.faults) ==>
      |pending| == 1 && CalmWalk(k.tree, k.at, limits, rootFd, rows, pending, {}, {})
  {
    hide Listed, TotalCaptured, LostCount, FailedReads, Faulty, CalmWalk, Accounted, IsTree, IsDirectory,
      Faithful, StatSeen, CannotEnter, DirectoryIdentity, Grown, Pinned, Orderly;
    GrownByItself(k.at);
    RootThere(k.tree);
    RootSeen(k.tree, k.script, k.calls);
    rows, raised, rootFd, pending, lost := [], false, 0, [], {};
    NothingListed(limits);
    RootRows(limits);
    var ok, details := k.StatPath([]);
    if !ok { return [RootRow(false, NotThere)], false, 0, [], {}; }
    if details.kind != Directory { return [RootRow(true, NotRead)], false, 0, [], {}; }
    rows, raised, rootFd, pending, lost := EnterRoot(k, details);
    if hopeful && k.faults == old(k.faults) {
      RootIsCalm(k.tree, k.at, limits, rootFd, details, pending[0]);
    }
  }

  /** The root is opened, and the new descriptor is pinned. */
  method EnterRoot(k: Kernel, details: Stat)
    returns (rows: seq<Row>, raised: bool, rootFd: nat, pending: seq<QueuedDirectory>, ghost lost: set<nat>)
    requires k.Valid()
    modifies k
    ensures k.Valid() && k.Keeps() && k.delivered == old(k.delivered)
    ensures IsRootAnswer(rows) && (rows == [] ==> raised) && (pending != [] ==> !raised)
    ensures lost !! old(k.open) && |lost| == if raised then 1 else 0
    ensures k.unexamined == old(k.unexamined) + if raised then 1 else 0
    ensures raised <==> CannotEnter(k.tree, k.script, old(k.calls), details)
    ensures pending == [] ==> k.open == old(k.open) + lost
    ensures pending != [] ==>
      rootFd !in old(k.open) && rootFd in k.open && lost == {} && Accounted(pending, {}, old(k.open) + {rootFd}, k.open)
    ensures pending != [] ==> (
      var q := pending[0];
      && pending == [q] && rows == [RootRow(true, NoProblem)]
      && q.parts == [] && q.depth == 0 && q.identity == DirectoryIdentity(details)
      && q.fd in k.at && rootFd in k.at && k.at[q.fd] == k.at[rootFd])
    ensures k.faults == old(k.faults) && IsDirectory(k.tree, []) && k.tree[[]] == details ==>
      pending != [] && k.at[rootFd] == []
  {
    hide Faulty, Accounted, OpenSeen, CannotPin, CannotEnter, DirectoryIdentity, Grown, IsDirectory, IsRootAnswer;
    OpensDirectory(k.tree, k.script, k.calls, []);
    EnteringFails(k.tree, k.script, k.calls, details);
    rows, raised, pending, lost := [RootRow(true, OpenFailed)], false, [], {};
    var ok;
    ok, rootFd := k.Open([], true);
    if !ok { return; }
    ghost var at := k.at;
    rows, raised, pending, lost := PinRoot(k, rootFd, details);
    GrownTwice(old(k.at), at, k.at);
  }

  lemma EnteringFails(tree: Tree, script: nat -> Answer, first: nat, details: Stat)
    ensures var place := OpenSeen(tree, script, first, [], true);
      CannotEnter(tree, script, first, details)
      <==> place.Some? && CannotPin(tree, script, first + 1, place.value, details)
    ensures IsDirectory(tree, []) ==> [] in tree
    ensures IsRootAnswer([RootRow(true, OpenFailed)])
  {
  }

  lemma OpensDirectory(tree: Tree, script: nat -> Answer, n: nat, path: Parts)
    ensures script(n).Fine? && IsDirectory(tree, path) ==> OpenSeen(tree, script, n, path, true) == Some(path)
  {
  }

  /** The new root descriptor is compared and duplicated. */
  method PinRoot(k: Kernel, rootFd: nat, details: Stat)
    returns (rows: seq<Row>, raised: bool, pending: seq<QueuedDirectory>, ghost lost: set<nat>)
    requires k.Valid() && rootFd in k.open
    modifies k
    ensures k.Valid() && k.Keeps() && k.delivered == old(k.delivered) && rootFd in old(k.at)
      && k.at[rootFd] == old(k.at)[rootFd]
    ensures IsRootAnswer(rows) && (rows == [] ==> raised)
    ensures raised <==> k.unexamined == old(k.unexamined) + 1
    ensures !raised ==> k.unexamined == old(k.unexamined)
    ensures raised <==> CannotPin(k.tree, k.script, old(k.calls), k.at[rootFd], details)
    ensures if raised then pending == [] && lost == {rootFd} && k.open == old(k.open) else lost == {}
    ensures pending == [] && !raised ==> k.open == old(k.open) - {rootFd}
    ensures pending != [] ==>
      rootFd in k.open && rows == [RootRow(true, NoProblem)] && Accounted(pending, {}, old(k.open), k.open)
    ensures pending != [] ==> (
      var q := pending[0];
      pending == [q] && q.parts == [] && q.depth == 0 && q.identity == DirectoryIdentity(details) && q.fd in k.at
        && k.at[q.fd] == k.at[rootFd])
    ensures k.faults == old(k.faults) && k.at[rootFd] in k.tree && k.tree[k.at[rootFd]] == details ==> pending != []
  {
    hide Faulty, Accounted, DirectoryIdentity;
    rows, raised, pending, lost := [], false, [], {};
    var ok, s := k.Fstat(rootFd);
    if !ok { return [], true, [], {rootFd}; }
    if DirectoryIdentity(s) != DirectoryIdentity(details) {
      k.Close(rootFd);
      return [RootRow(true, IdentityChanged)], false, [], {};
    }
    var fd;
    ok, fd := k.Dup(rootFd);
    if !ok { return [], true, [], {rootFd}; }
    var q := QueuedDirectory([], 0, fd, DirectoryIdentity(details));
    rows, pending := [RootRow(true, NoProblem)], [q];
    RootIsAccounted(q, old(k.open), k.open);
  }

  /** From call `first` on, the root is seen to be a directory and is opened, and then cannot be
      examined, or is found to be the same and cannot be duplicated. */
  predicate FailsAtRoot(tree: Tree, script: nat -> Answer, first: nat) {
    var details := StatSeen(tree, script, first, []);
    details.Some? && details.value.kind == Directory && CannotEnter(tree, script, first + 1, details.value)
  }

  predicate CannotEnter(tree: Tree, script: nat -> Answer, first: nat, details: Stat) {
    var place := OpenSeen(tree, script, first, [], true);
    place.Some? && CannotPin(tree, script, first + 1, place.value, details)
  }

  predicate CannotPin(tree: Tree, script: nat -> Answer, first: nat, place: Parts, details: Stat) {
    var examined := StatSeen(tree, script, first, place);
    examined == None || (DirectoryIdentity(examined.value) == DirectoryIdentity(details) && !script(first + 1).Fine?)
  }

  lemma RootSeen(tree: Tree, script: nat -> Answer, first: nat)
    requires IsTree(tree) ==> IsDirectory(tree, [])
    ensures IsTree(tree) && script(first).Fine? ==> StatSeen(tree, script, first, []) == Some(tree[[]])
    ensures IsTree(tree) && script(first + 1).Fine? ==> OpenSeen(tree, script, first + 1, [], true) == Some([])
  {
    hide IsTree;
  }

  lemma RootThere(tree: Tree)
    ensures IsTree(tree) ==> IsDirectory(tree, [])
  {
  }

  /** Nothing, or the row of the root. */
  predicate IsRootAnswer(rows: seq<Row>) {
    rows == [] || (|rows| == 1 && rows[0].RootRow?)
  }

  lemma RootRows(limits: Limits)
    ensures forall rows | IsRootAnswer(rows) :: (
      && Listed(rows) == [] && TotalCaptured(rows) == 0 && LostCount(rows) == 0 && FailedReads(rows) == 0
      && BoundaryRow !in rows && (rows != [] ==> Orderly(rows)))
  {
    NothingListed(limits);
    forall rows | IsRootAnswer(rows)
      ensures Listed(rows) == [] && TotalCaptured(rows) == 0 && LostCount(rows) == 0 && FailedReads(rows) == 0
      ensures BoundaryRow !in rows && (rows != [] ==> Orderly(rows))
    {
      if rows != [] {
        RowsGrow([], rows[0]);
        assert [] + [rows[0]] == rows;
      }
    }
  }

  lemma RootIsAccounted(q: QueuedDirectory, before: set<nat>, open: set<nat>)
    requires q.fd !in before && open == before + {q.fd}
    ensures Accounted([q], {}, before, open)
  {
    ChildAdded([], q);
    assert [] + [q] == [q];
  }

  lemma RootIsCalm(tree: Tree, at: map<nat, Parts>, limits: Limits, rootFd: nat, details: Stat, q: QueuedDirectory)
    requires IsTree(tree) && rootFd in at && at[rootFd] == [] && q.parts == [] && q.depth == 0
    requires IsDirectory(tree, []) && tree[[]] == details && q.identity == DirectoryIdentity(details)
    requires q.fd in at && at[q.fd] == []
    ensures CalmWalk(tree, at, limits, rootFd, [RootRow(true, NoProblem)], [q], {}, {})
  {
    RootRows(limits);
    assert IsRootAnswer([RootRow(true, NoProblem)]);
    assert Paths([q]) == [[]];
    WalkStarts(tree, limits.maxDepth);
  }

  /** The queue loop stopped at the entry budget, or ran out of directories. */
  ghost predicate Stopped(k: Kernel, limits: Limits, rootFd: nat, start: Moment, hopeful: bool, rows: seq<Row>,
                          pending: seq<QueuedDirectory>, lost: set<nat>)
    reads k
  {
    && k.Valid() && start.NoLaterThan(Now(k)) && Spent(limits, start, Now(k), rows, lost)
    && rootFd in k.open && rootFd !in start.open && Accounted(pending, lost, start.open + {rootFd}, k.open)
    && |lost| == LostCount(rows) && |Listed(rows)| <= limits.maxEntries && TotalCaptured(rows) <= limits.maxTotalBytes
    && Orderly(rows)
    && (hopeful && k.faults == start.faults ==>
      ListsTree(k.tree, limits, rows) && lost == {} && AsMeant(k.tree, limits, 0, start, Now(k), rows))
  }

  /** The value-level part of Snapshotting, at the moment `now`. */
  ghost predicate SnapshottingAt(tree: Tree, limits: Limits, rootFd: nat, start: Moment, now: Moment,
                                 hopeful: bool, rows: seq<Row>, pending: seq<QueuedDirectory>,
                                 lost: set<nat>, done: set<Parts>) {
    && start.NoLaterThan(now) && Spent(limits, start, now, rows, lost)
    && rootFd in now.open && rootFd !in start.open && Accounted(pending, lost, start.open + {rootFd}, now.open)
    && |lost| == LostCount(rows) && |Listed(rows)| <= limits.maxEntries && TotalCaptured(rows) <= limits.maxTotalBytes
    && BoundaryRow !in rows && Orderly(rows) && InOrder(Listed(rows), Paths(pending))
    && (hopeful && now.faults == start.faults ==>
      CalmWalk(tree, now.at, limits, rootFd, rows, pending, lost, done)
        && AsMeant(tree, limits, 0, start, now, rows))
  }

  lemma TurnEnds(k: Kernel, limits: Limits, rootFd: nat, start: Moment, now: Moment, hopeful: bool, rows: seq<Row>,
                 pending: seq<QueuedDirectory>, lost: set<nat>, done: set<Parts>, more: seq<Row>,
                 children: seq<QueuedDirectory>, overflow: bool, gone: set<nat>, names: seq<string>, found: seq<string>)
    requires SnapshottingAt(k.tree, limits, rootFd, start, now, hopeful, rows, pending, lost, done) && pending != []
    requires k.Valid() && now.NoLaterThan(Now(k))
    requires DirectoryDone(k.tree, limits, pending[0], |Listed(rows)|, TotalCaptured(rows), now, Now(k),
      more, children, overflow, gone, hopeful && k.faults == start.faults, names, found)
    ensures var rows', pending', lost' := rows + more, pending[1..] + children, lost + gone;
      && |Listed(rows')| <= limits.maxEntries && |Listed(rows')| - |pending'| > |Listed(rows)| - |pending|
      && if overflow then Stopped(k, limits, rootFd, start, hopeful, rows', pending', lost')
         else Snapshotting(k, limits, rootFd, start, hopeful, rows', pending', lost', done + {pending[0].parts})
  {
    hide CalmWalk, DirectoryDone, ListsTree, Accounted, TotalCaptured, Listed, LostCount, ReadBound, Orderly, InOrder,
      Meant, InPlace, InNameOrder;
    DoneInOrder(k.tree, limits, pending[0], |Listed(rows)|, TotalCaptured(rows), now, Now(k),
      more, children, overflow, gone, hopeful && k.faults == start.faults, names, found);
    OrderlyGoesOn(rows, pending, more, names, children);
    SnapshotGoesOn(k.tree, limits, rootFd, rows, pending, lost, done, start.open + {rootFd},
      now, Now(k), more, children, overflow, gone, hopeful && k.faults == start.faults, names, found);
    StillOpen(pending[1..] + children, lost + gone, start.open + {rootFd}, k.open);
  }

  lemma TurnStarts(k: Kernel, limits: Limits, rootFd: nat, start: Moment, hopeful: bool, rows: seq<Row>,
                   pending: seq<QueuedDirectory>, lost: set<nat>, done: set<Parts>)
    requires Snapshotting(k, limits, rootFd, start, hopeful, rows, pending, lost, done) && pending != []
    ensures k.Valid() && pending[0].fd in k.open && rootFd in k.open && pending[0].fd != rootFd
    ensures |Listed(rows)| <= limits.maxEntries && TotalCaptured(rows) <= limits.maxTotalBytes
    ensures SnapshottingAt(k.tree, limits, rootFd, start, Now(k), hopeful, rows, pending, lost, done)
    ensures start.NoLaterThan(Now(k))
    ensures hopeful && k.faults == start.faults ==>
      IsTree(k.tree) && Faithful(k.tree, k.at, limits.maxDepth, pending[0]) && k.at[rootFd] == []
  {
    hide IsTree, Faithful, Listed, TotalCaptured, LostCount, Walk, Faulty, Orderly, InOrder, Meant;
    FirstPending(pending, lost, start.open + {rootFd}, k.open);
  }

  /** One turn of the queue loop. */
  method SnapshotTurn(k: Kernel, limits: Limits, rootFd: nat, ghost start: Moment, ghost hopeful: bool, rows: seq<Row>,
                      pending: seq<QueuedDirectory>, ghost lost: set<nat>, ghost done: set<Parts>)
    returns (rows': seq<Row>, pending': seq<QueuedDirectory>, overflow: bool,
      ghost lost': set<nat>, ghost done': set<Parts>)
    requires Snapshotting(k, limits, rootFd, start, hopeful, rows, pending, lost, done) && pending != []
    modifies k
    ensures if overflow then Stopped(k, limits, rootFd, start, hopeful, rows', pending', lost')
            else Snapshotting(k, limits, rootFd, start, hopeful, rows', pending', lost', done')
    ensures |Listed(rows')| <= limits.maxEntries && |Listed(rows')| - |pending'| > |Listed(rows)| - |pending|
  {
    hide CalmWalk, DirectoryDone, Accounted, Faithful, IsTree, TotalCaptured, Listed, LostCount,
      Snapshotting, SnapshottingAt, Stopped, ReadBound, Spent, Faulty, Orderly, InOrder, Meant;
    var q, more, children := pending[0], [], [];
    ghost var gone, names, found, now, calm := {}, [], [], Now(k), hopeful && k.faults == start.faults;
    TurnStarts(k, limits, rootFd, start, hopeful, rows, pending, lost, done);
    more, children, overflow, gone, names, found :=
      SnapshotDirectory(k, limits, rootFd, q, |Listed(rows)|, TotalCaptured(rows), calm);
    DoneSince(k.tree, limits, q, |Listed(rows)|, TotalCaptured(rows), now, now, Now(k), more, children, overflow, gone,
              calm && k.faults == now.faults, hopeful && k.faults == start.faults, names, found);
    TurnEnds(k, limits, rootFd, start, now, hopeful, rows, pending, lost, done, more, children,
      overflow, gone, names, found);
    rows', pending', lost', done' := rows + more, pending[1..] + children, lost + gone, done + {q.parts};
  }

  lemma StillOpen(pending: seq<QueuedDirectory>, lost: set<nat>, before: set<nat>, open: set<nat>)
    requires Accounted(pending, lost, before, open)
    ensures before <= open
  {
  }

  /** Running out of directories is a stop too. */
  lemma NothingPending(k: Kernel, limits: Limits, rootFd: nat, start: Moment, hopeful: bool, rows: seq<Row>,
                       lost: set<nat>, done: set<Parts>)
    requires Snapshotting(k, limits, rootFd, start, hopeful, rows, [], lost, done)
    ensures Stopped(k, limits, rootFd, start, hopeful, rows, [], lost)
  {
    if hopeful && k.faults == start.faults {
      WalkIsComplete(k.tree, k.at, limits, rootFd, rows, done);
    }
  }

  /** The outer `finally`: close what is still queued, then the root. */
  method CloseRest(k: Kernel, limits: Limits, rootFd: nat, ghost start: Moment, ghost hopeful: bool, rows: seq<Row>,
                   pending: seq<QueuedDirectory>, ghost lost: set<nat>)
    requires Stopped(k, limits, rootFd, start, hopeful, rows, pending, lost)
    modifies k`open
    ensures k.Valid() && k.open == start.open + lost && lost !! start.open
    ensures Summed(k.tree, limits, start, Now(k), hopeful, rows, lost)
  {
    hide Fds, DistinctFds, ListsTree, Listed, LostCount, TotalCaptured, Accounted, Faulty, Orderly, Meant;
    LeftOpen(pending, lost, start.open, rootFd, k.open);
    CloseAll(k, pending);
    k.Close(rootFd);
  }

  /** What a snapshot has spent and lost in the end. */
  ghost predicate Summed(tree: Tree, limits: Limits, start: Moment, end: Moment, hopeful: bool,
                         rows: seq<Row>, lost: set<nat>) {
    && |lost| == LostCount(rows) && |lost| <= end.unexamined - start.unexamined
    && |Listed(rows)| <= limits.maxEntries && TotalCaptured(rows) <= limits.maxTotalBytes
    && end.delivered <= start.delivered + ReadBound(rows, limits) && Orderly(rows)
    && (hopeful && end.faults == start.faults ==>
      ListsTree(tree, limits, rows) && lost == {} && AsMeant(tree, limits, 0, start, end, rows))
  }

  lemma LeftOpen(pending: seq<QueuedDirectory>, lost: set<nat>, before: set<nat>, rootFd: nat, open: set<nat>)
    requires Accounted(pending, lost, before + {rootFd}, open) && rootFd !in before
    ensures open - Fds(pending) - {rootFd} == before + lost && rootFd in open - Fds(pending)
    ensures DistinctFds(pending) && Fds(pending) <= open && lost !! before
  {
    hide Fds, DistinctFds;
  }

  lemma SnapshotStarts(k: Kernel, limits: Limits, rootFd: nat, start: Moment, hopeful: bool, rows: seq<Row>,
                       pending: seq<QueuedDirectory>)
    requires k.Valid() && start.NoLaterThan(Now(k)) && k.delivered == start.delivered
    requires rootFd in k.open && rootFd !in start.open && Accounted(pending, {}, start.open + {rootFd}, k.open)
    requires LostCount(rows) == 0 && Listed(rows) == [] && TotalCaptured(rows) == 0
      && FailedReads(rows) == 0 && BoundaryRow !in rows
    requires Orderly(rows) && Paths(pending) == [[]] && rows == [RootRow(true, NoProblem)]
    requires hopeful && k.faults == start.faults ==> CalmWalk(k.tree, k.at, limits, rootFd, rows, pending, {}, {})
    ensures Snapshotting(k, limits, rootFd, start, hopeful, rows, pending, {}, {})
  {
  }

  lemma NothingListed(limits: Limits)
    ensures Listed([]) == [] && TotalCaptured([]) == 0 && LostCount([]) == 0 && FailedReads([]) == 0
      && ReadBound([], limits) == 0
  {
  }

  /** The queue loop, and its `finally`. */
  method SnapshotPending(k: Kernel, limits: Limits, rootFd: nat, ghost start: Moment,
                         ghost hopeful: bool, first: seq<Row>, queue: seq<QueuedDirectory>)
    returns (rows: seq<Row>, ghost lost: set<nat>)
    requires Snapshotting(k, limits, rootFd, start, hopeful, first, queue, {}, {}) && Listed(first) == []
    modifies k
    ensures k.Valid() && k.open == start.open + lost && lost !! start.open
    ensures Summed(k.tree, limits, start, Now(k), hopeful, rows, lost)
  {
    hide Snapshotting, Stopped, Listed, CalmWalk, IsTree, ListsTree, Summed, Accounted, Faulty;
    rows, lost := first, {};
    var pending := queue;
    ghost var done := {};
    var overflow := false;
    while pending != [] && !overflow
      invariant if overflow then Stopped(k, limits, rootFd, start, hopeful, rows, pending, lost)
                else Snapshotting(k, limits, rootFd, start, hopeful, rows, pending, lost, done)
      invariant |Listed(rows)| <= limits.maxEntries
      decreases limits.maxEntries - |Listed(rows)| + |pending|
    {
      rows, pending, overflow, lost, done := SnapshotTurn(k, limits, rootFd, start, hopeful, rows, pending, lost, done);
    }
    if !overflow {
      NothingPending(k, limits, rootFd, start, hopeful, rows, lost, done);
    }
    CloseRest(k, limits, rootFd, start, hopeful, rows, pending, lost);
  }

  /** snapshot_early_runtime_tree, for every script of failures and changes.  Every descriptor
      opened is closed again, except one for each directory whose new descriptor could not be
      examined, or the root's when the call raises: without a failing fstat or dup nothing stays
      open.  Entries and captured bytes stay within their budgets; what is read beyond that
      belongs to reads that failed.  Undisturbed: the rows list the tree, and exactly the
      captured bytes are read. */
  method SnapshotEarlyRuntimeTree(k: Kernel, limits: Limits)
    returns (rows: seq<Row>, raised: bool, ghost lost: set<nat>)
    requires k.Valid()
    modifies k
    ensures k.Valid() && k.open == old(k.open) + lost && lost !! old(k.open)
    ensures limits.maxEntries == 0 ==> raised && lost == {}
    ensures limits.maxEntries > 0 ==> |lost| == if raised then 1 else LostCount(rows)
    ensures |lost| <= k.unexamined - old(k.unexamined)
    ensures k.unexamined == old(k.unexamined) ==> k.open == old(k.open)
    ensures limits.maxEntries > 0 ==> (raised <==> FailsAtRoot(k.tree, k.script, old(k.calls)))
    ensures |Listed(rows)| <= limits.maxEntries && TotalCaptured(rows) <= limits.maxTotalBytes
    ensures k.delivered <= old(k.delivered) + ReadBound(rows, limits)
    ensures !raised ==> Orderly(rows)
    ensures k.faults == old(k.faults) && IsTree(k.tree) && limits.maxEntries > 0 ==> (
      && !raised && lost == {} && ListsTree(k.tree, limits, rows) && Meant(k.tree, limits, 0, rows)
      && k.delivered == old(k.delivered) + TotalCaptured(rows))
  {
    hide Snapshotting, Stopped, Listed, CalmWalk, IsTree, ListsTree, FailsAtRoot, TotalCaptured, FailedReads,
      LostCount, Accounted, Faulty, ReadBound, Grown, StatSeen, OpenSeen, Openable, DirectoryIdentity, Orderly, Meant;
    NothingListed(limits);
    if limits.maxEntries < 1 { return [], true, {}; }
    ghost var start, hopeful := Now(k), IsTree(k.tree);
    var rootFd, pending;
    rows, raised, rootFd, pending, lost := OpenRoot(k, limits, hopeful);
    if pending == [] { return; }
    SnapshotStarts(k, limits, rootFd, start, hopeful, rows, pending);
    rows, lost := SnapshotPending(k, limits, rootFd, start, hopeful, rows, pending);
  }

  // ----- what the order and the rows determine ------------------------------------------------------

  /** Of two listed paths the earlier is not deeper; with one parent it has the smaller name; and
      all entries of an earlier directory come first. */
  lemma SnapshotOrder(rows: seq<Row>, i: nat, j: nat)
    requires Orderly(rows) && i < j < |Listed(rows)|
    ensures var a, b := Listed(rows)[i], Listed(rows)[j];
      && |a| <= |b| && a != b
      && (|a| == |b| && a != [] ==>
        if Parent(a) == Parent(b) then StringLess(a[|a| - 1], b[|b| - 1]) else PathLess(Parent(a), Parent(b)))
  {
    BreadthFirst(Listed(rows), i, j);
  }

  lemma RowsInPlace(rows: seq<Row>, i: nat)
    requires Orderly(rows) && i < |rows|
    ensures (rows[i].RootRow? <==> i == 0) && (rows[i].BoundaryRow? ==> i == |rows| - 1)
  {
    hide Listed, PathLess;
    if i > 0 {
      assert rows[1..][i - 1] == rows[i];
    }
  }

  lemma {:induction false} ListedRows(rows: seq<Row>)
    requires forall row | row in rows :: row.EntryRow?
    ensures |Listed(rows)| == |rows| && forall i | 0 <= i < |rows| :: Listed(rows)[i] == rows[i].path
  {
    if rows != [] {
      var front := rows[..|rows| - 1];
      assert forall row | row in front :: row in rows;
      assert rows[|rows| - 1] in rows;
      ListedRows(front);
    }
  }

  lemma {:induction false} SameRows(tree: Tree, limits: Limits, total: nat, a: seq<Row>, b: seq<Row>)
    requires Meant(tree, limits, total, a) && Meant(tree, limits, total, b) && |a| == |b|
    requires forall i | 0 <= i < |a| :: a[i] == b[i] || (a[i].EntryRow? && b[i].EntryRow? && a[i].path == b[i].path)
    ensures a == b
  {
    hide RowFor, TotalCaptured;
    if a != [] {
      var n := |a| - 1;
      SameRows(tree, limits, total, a[..n], b[..n]);
      assert a == a[..n] + [a[n]] && b == b[..n] + [b[n]];
      if a[n].EntryRow? && b[n].EntryRow? {
        SameRow(limits, total + TotalCaptured(a[..n]), tree[a[n].path], a[n], b[n]);
      }
    }
  }

  lemma SameRow(limits: Limits, total: nat, s: Stat, a: Row, b: Row)
    requires a.EntryRow? && b.EntryRow? && a.path == b.path
    requires RowFor(limits, total, s, a) && RowFor(limits, total, s, b)
    ensures a == b
  {
  }

  /** Whatever order the directories are read in, an undisturbed snapshot of a tree within the
      bounds has one possible result: the root's row and then the sorted entries, each with the
      row it is meant to have. */
  lemma OneSnapshot(tree: Tree, limits: Limits, a: seq<Row>, b: seq<Row>)
    requires Orderly(a) && ListsTree(tree, limits, a) && Meant(tree, limits, 0, a)
    requires Orderly(b) && ListsTree(tree, limits, b) && Meant(tree, limits, 0, b)
    requires |Target(tree, limits.maxDepth)| <= limits.maxEntries
    ensures a == b
  {
    ListingIsSorted(tree, limits, a);
    ListingIsSorted(tree, limits, b);
    hide *;
    forall i | 0 <= i < |a|
      ensures a[i] == b[i] || (a[i].EntryRow? && b[i].EntryRow? && a[i].path == b[i].path)
    {
      if i > 0 {
        assert a[i].path == Listed(a)[i - 1] && b[i].path == Listed(b)[i - 1];
      }
    }
    SameRows(tree, limits, 0, a, b);
  }

  lemma ListingIsSorted(tree: Tree, limits: Limits, rows: seq<Row>)
    requires Orderly(rows) && ListsTree(tree, limits, rows) && |Target(tree, limits.maxDepth)| <= limits.maxEntries
    ensures Listed(rows) == (PathOrder(); Sorted(PathLess, Target(tree, limits.maxDepth)))
    ensures rows[0] == RootRow(true, NoProblem) && |Listed(rows)| == |rows| - 1
    ensures forall i | 1 <= i < |rows| :: rows[i].EntryRow? && rows[i].path == Listed(rows)[i - 1]
  {
    hide PathLess, Target, StrictTotalOrder, Listed, Sorted;
    PathOrder();
    RootAndEntries(tree, rows);
    IncreasingUnique(PathLess, Listed(rows), Sorted(PathLess, Target(tree, limits.maxDepth)));
  }

  lemma RootAndEntries(tree: Tree, rows: seq<Row>)
    requires Orderly(rows) && PlainRows(tree, rows) && BoundaryRow !in rows
    ensures rows[0] == RootRow(true, NoProblem) && |Listed(rows)| == |rows| - 1
    ensures forall i | 1 <= i < |rows| :: rows[i].EntryRow? && rows[i].path == Listed(rows)[i - 1]
  {
    hide Listed, PathLess, PlainRows, Increasing;
    var rest := rows[1..];
    PlainRow(tree, rows, 0);
    forall i | 0 <= i < |rest|
      ensures rest[i].EntryRow? && rest[i] == rows[i + 1]
    {
      PlainRow(tree, rows, i + 1);
    }
    RootListsNothing(rows[0], rest);
    assert rows == [rows[0]] + rest;
    ListedRows(rest);
  }

  lemma PlainRow(tree: Tree, rows: seq<Row>, i: nat)
    requires PlainRows(tree, rows) && BoundaryRow !in rows && i < |rows|
    ensures rows[i].EntryRow? || rows[i] == RootRow(true, NoProblem)
  {
    assert rows[i] in rows;
  }

  lemma RootListsNothing(root: Row, rest: seq<Row>)
    requires root.RootRow?
    ensures Listed([root] + rest) == Listed(rest)
  {
    hide *;
    RowsGrow([], root);
    NothingListed(Limits(0, 0, 0, 0));
    assert [] + [root] == [root];
    RowsAppend([root], rest);
    assert Listed([root]) == [];
  }

  // ----- two runs that are not as one might wish ---------------------------------------------------

  const ROOT_STAT := Stat(Directory, 1, 1, 0, 0, 0, 0, 0)

  /** A run in which the third call, the fstat of the root, fails: its descriptor stays open. */
  method DescriptorStaysOpen(limits: Limits) returns (k: Kernel)
    requires limits.maxEntries > 0
    ensures fresh(k) && k.Valid() && k.open != {} && k.unexamined > 0
  {
    k := new Kernel(map[[] := ROOT_STAT], n => if n == 2 then Fails else Fine);
    var rows, raised, lost := SnapshotEarlyRuntimeTree(k, limits);
  }

  /** After `total` captured bytes a file grows from nothing to `size` bytes between the stat and
      the open: it passes the check of the byte budget, and is read in full before the identity
      check refuses it. */
  method ReadsBeyondBudget(limits: Limits, total: nat, size: nat) returns (k: Kernel, row: Row)
    requires total <= limits.maxTotalBytes < total + size && size <= limits.maxFileBytes
    ensures fresh(k) && row.EntryRow? && row.problem == NotRead
    ensures k.delivered == size && total + k.delivered > limits.maxTotalBytes
  {
    hide EntryDone, Faulty;
    var now := Stat(RegularFile, 1, 2, 0, 0, size, 1, 1);
    k := new Kernel(map[[] := ROOT_STAT, ["f"] := now], n => if n == 1 then Reports(now.(size := 0)) else Fine);
    var ok, root := k.Open([], true);
    OneFault(k.script, 1, k.calls);
    assert k.at[root] + ["f"] == ["f"];
    ghost var start, lost := Now(k), {};
    var child;
    var queued := QueuedDirectory([], 0, root, DirectoryIdentity(ROOT_STAT));
    row, child, lost := SnapshotEntry(k, limits, queued, "f", total);
    OneFault(k.script, 1, k.calls);
    assert OnlyStatIsOff(k, limits, start, root, "f", total);
  }
}
