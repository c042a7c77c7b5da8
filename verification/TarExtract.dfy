/** tools/buildroot_compliance_bundle.py: extracting a compliance archive member by member. */
module TarExtract {
  import opened Options
  import opened PosixPaths

  const BUNDLE_ROOT := "hidloom-buildroot-m6-compliance"
  const SIZE_LIMIT: nat := 8 * 1024 * 1024 * 1024

  /** `header` is the size a member without content claims in its header. */
  datatype Body =
    | Directory(header: nat)
    | File(content: string)
    | Link(header: nat, target: string)
    | Unsupported(header: nat)

  datatype Member = Member(name: string, body: Body) {
    function Size(): nat { if body.File? then |body.content| else body.header }
    function Path(): Parts { PartsOf(name) }
    predicate MakesFile() { body.File? || body.Link? }
  }

  /** What is below the destination directory. */
  datatype Destination = Destination(files: map<Parts, string>, dirs: set<Parts>)

  datatype Refusal =
    UnsafeName | DuplicateName | UnsupportedMember | TooLarge | UnsafeLink | UnresolvedLink | Occupied | UnexpectedRoot

  // ----- the file system under the destination ---------------------------------------------------

  function Prefixes(path: Parts): set<Parts> {
    set k: nat | 1 <= k <= |path| :: path[..k]
  }

  /** mkdir(parents=True, exist_ok=True); None when a file is in the way. */
  function MakeDirectories(d: Destination, path: Parts): Option<Destination> {
    if exists p :: p in Prefixes(path) && p in d.files then None
    else Some(d.(dirs := d.dirs + Prefixes(path)))
  }

  /** open("wb") and copying; None when a directory has the name. */
  function WriteFile(d: Destination, path: Parts, content: string): Option<Destination> {
    if path in d.dirs then None else Some(d.(files := d.files[path := content]))
  }

  /** os.link; None when the name is taken. */
  function LinkFile(d: Destination, source: Parts, path: Parts): Option<Destination>
    requires source in d.files
  {
    if path in d.dirs || path in d.files then None else Some(d.(files := d.files[path := d.files[source]]))
  }

  // ----- which sequences of members are accepted --------------------------------------------------

  function TotalSize(members: seq<Member>, n: nat): nat
    requires n <= |members|
  {
    if n == 0 then 0 else TotalSize(members, n - 1) + members[n - 1].Size()
  }

  /** One of the first n members is a file with this path. */
  ghost predicate FileAt(members: seq<Member>, n: nat, path: Parts) {
    exists j :: 0 <= j < n && j < |members| && members[j].Path() == path && members[j].MakesFile()
  }

  /** One of the first n members makes a directory with this path, itself or for what is in it. */
  ghost predicate DirAt(members: seq<Member>, n: nat, path: Parts) {
    path != [] && exists j :: 0 <= j < n && j < |members| && DirFor(members[j], path)
  }

  predicate DirFor(m: Member, path: Parts) {
    path <= m.Path() && (m.MakesFile() ==> path != m.Path())
  }

  predicate UnderRoot(name: string) {
    IsSafe(name) && PartsOf(name)[0] == BUNDLE_ROOT
  }

  ghost predicate NoFileAbove(members: seq<Member>, n: nat, path: Parts) {
    forall k | 1 <= k < |path| :: !FileAt(members, n, path[..k])
  }

  /** Member n may follow the members before it. */
  ghost predicate Fits(members: seq<Member>, n: nat)
    requires n < |members|
  {
    var m := members[n];
    && UnderRoot(m.name) && !m.body.Unsupported?
    && (forall j | 0 <= j < n :: members[j].Path() != m.Path())
    && TotalSize(members, n + 1) <= SIZE_LIMIT
    && NoFileAbove(members, n, m.Path())
    && (m.MakesFile() ==> !DirAt(members, n, m.Path()))
    && (m.body.Link? ==> UnderRoot(m.body.target) && FileAt(members, n, PartsOf(m.body.target)))
  }

  ghost predicate AllFit(members: seq<Member>, n: nat)
    requires n <= |members|
  {
    forall i | 0 <= i < n :: Fits(members, i)
  }

  /** What has been extracted after n members. */
  ghost predicate Holds(d: Destination, members: seq<Member>, n: nat)
    requires n <= |members|
  {
    && (forall p: Parts :: p in d.files <==> FileAt(members, n, p))
    && (forall p: Parts :: p in d.dirs <==> DirAt(members, n, p))
    && (forall j | 0 <= j < n && members[j].MakesFile() :: HasContent(d, members, j))
  }

  /** A file has the content of its member, and a link that of the earlier file it names. */
  ghost predicate HasContent(d: Destination, members: seq<Member>, j: nat)
    requires j < |members|
  {
    var m := members[j];
    m.Path() in d.files && match m.body
      case File(content) => d.files[m.Path()] == content
      case Link(_, target) =>
        FileAt(members, j, PartsOf(target)) && PartsOf(target) in d.files
          && d.files[m.Path()] == d.files[PartsOf(target)]
      case _ => true
  }

  ghost predicate IsNames(names: set<string>, members: seq<Member>, n: nat)
    requires n <= |members|
  {
    forall name :: name in names <==> exists j :: 0 <= j < n && Joined(members[j].Path()) == name
  }

  /** A member with a fresh path under the root finds its place. */
  predicate Placeable(d: Destination, m: Member) {
    && (forall k | 1 <= k < |m.Path()| :: m.Path()[..k] !in d.files)
    && (m.MakesFile() ==> m.Path() !in d.dirs)
    && (m.body.Link? ==> UnderRoot(m.body.target) && PartsOf(m.body.target) in d.files)
  }

  function Placed(d: Destination, m: Member): Destination
    requires m.body.Link? ==> PartsOf(m.body.target) in d.files
  {
    Destination(
      match m.body
        case File(content) => d.files[m.Path() := content]
        case Link(_, target) => d.files[m.Path() := d.files[PartsOf(target)]]
        case _ => d.files,
      d.dirs + set k: nat | 1 <= k <= |m.Path()| && (m.MakesFile() ==> k < |m.Path()|) :: m.Path()[..k])
  }

  /** One round of the loop over the archive, after the checks on the name. */
  method ExtractMember(d: Destination, m: Member) returns (after: Destination, refusal: Option<Refusal>)
    requires UnderRoot(m.name) && m.Path() !in d.files
    ensures refusal.None? <==> !m.body.Unsupported? && Placeable(d, m)
    ensures refusal.None? ==> after == Placed(d, m)
  {
    hide IsSafe, PartsOf;
    after := d;
    var path := m.Path();
    ParentsMade(d, path);
    match m.body {
      case Unsupported(_) => return d, Some(UnsupportedMember);
      case Directory(_) =>
        var made := MakeDirectories(d, path);
        WholePath(path);
        return if made == None then d else made.value, if made == None then Some(Occupied) else None;
      case Link(_, target) =>
        if !IsSafe(target) || PartsOf(target)[0] != BUNDLE_ROOT { return d, Some(UnsafeLink); }
        if PartsOf(target) !in d.files { return d, Some(UnresolvedLink); }
        var made := MakeDirectories(d, path[..|path| - 1]);
        if made == None { return d, Some(Occupied); }
        var linked := LinkFile(made.value, PartsOf(target), path);
        if linked == None { return d, Some(Occupied); }
        return linked.value, None;
      case File(content) =>
        var made := MakeDirectories(d, path[..|path| - 1]);
        if made == None { return d, Some(Occupied); }
        var written := WriteFile(made.value, path, content);
        if written == None { return d, Some(Occupied); }
        return written.value, None;
    }
  }

  lemma ParentsMade(d: Destination, path: Parts)
    requires path != []
    ensures MakeDirectories(d, path[..|path| - 1]).Some? <==> forall k | 1 <= k < |path| :: path[..k] !in d.files
    ensures Prefixes(path[..|path| - 1]) == set k: nat | 1 <= k < |path| :: path[..k]
    ensures path !in Prefixes(path[..|path| - 1])
  {
    var parent := path[..|path| - 1];
    assert forall k | 0 <= k < |path| :: parent[..k] == path[..k];
    forall k: nat | 1 <= k < |path|
      ensures path[..k] in Prefixes(parent)
    {
      assert path[..k] == parent[..k];
    }
  }

  lemma WholePath(path: Parts)
    requires path != []
    ensures Prefixes(path) == (set k: nat | 1 <= k <= |path| :: path[..k])
    ensures forall p :: p in Prefixes(path) <==> p == path || exists k :: 1 <= k < |path| && p == path[..k]
  {
    assert path == path[..|path|];
  }

  lemma Injective(p: Parts, q: Parts)
    requires Joined(p) == Joined(q) && (forall part | part in p + q :: IsComponent(part))
    ensures p == q
  {
    assert forall part | part in p || part in q :: part in p + q;
    PartsOfJoined(p);
    PartsOfJoined(q);
  }

  lemma FileAtMore(members: seq<Member>, n: nat, p: Parts)
    requires n < |members|
    ensures FileAt(members, n + 1, p) <==> FileAt(members, n, p) || (p == members[n].Path() && members[n].MakesFile())
  {
  }

  lemma DirAtMore(members: seq<Member>, n: nat, p: Parts)
    requires n < |members|
    ensures DirAt(members, n + 1, p) <==> DirAt(members, n, p) || (p != [] && DirFor(members[n], p))
  {
  }

  lemma PlacedDirs(d: Destination, m: Member, p: Parts)
    requires m.body.Link? ==> PartsOf(m.body.target) in d.files
    ensures p in Placed(d, m).dirs <==> p in d.dirs || (p != [] && DirFor(m, p))
  {
    hide PartsOf;
    if p <= m.Path() { assert p == m.Path()[..|p|]; }
  }

  /** A member that fits is placed, and what was extracted before stays as it was. */
  lemma PlacedHolds(d: Destination, members: seq<Member>, n: nat)
    requires n < |members| && Holds(d, members, n)
    requires forall j | 0 <= j < n :: members[j].Path() != members[n].Path()
    requires Placeable(d, members[n])
    ensures Holds(Placed(d, members[n]), members, n + 1)
  {
    hide PartsOf, FileAt, DirAt, DirFor;
    var m, after, next := members[n], Placed(d, members[n]), n + 1;
    forall p: Parts
      ensures (p in after.files <==> FileAt(members, next, p)) && (p in after.dirs <==> DirAt(members, next, p))
    {
      FileAtMore(members, n, p);
      DirAtMore(members, n, p);
      PlacedDirs(d, m, p);
    }
    forall j | 0 <= j < next && members[j].MakesFile()
      ensures HasContent(after, members, j)
    {
      if j < n {
        ContentStays(d, members, n, j);
      } else {
        NotFileYet(members, n);
      }
    }
  }

  lemma NotFileYet(members: seq<Member>, n: nat)
    requires n < |members| && forall j | 0 <= j < n :: members[j].Path() != members[n].Path()
    ensures !FileAt(members, n, members[n].Path())
  {
  }

  lemma ContentStays(d: Destination, members: seq<Member>, n: nat, j: nat)
    requires j < n < |members| && Holds(d, members, n) && members[j].MakesFile()
    requires forall k | 0 <= k < n :: members[k].Path() != members[n].Path()
    requires members[n].body.Link? ==> PartsOf(members[n].body.target) in d.files
    ensures HasContent(Placed(d, members[n]), members, j)
  {
  }

  lemma PlaceableFits(d: Destination, members: seq<Member>, n: nat)
    requires n < |members| && Holds(d, members, n)
    ensures Placeable(d, members[n]) <==> (
      && NoFileAbove(members, n, members[n].Path())
      && (members[n].MakesFile() ==> !DirAt(members, n, members[n].Path()))
      && (members[n].body.Link? ==>
        UnderRoot(members[n].body.target) && FileAt(members, n, PartsOf(members[n].body.target))))
  {
  }

  lemma NamesDistinct(names: set<string>, members: seq<Member>, n: nat)
    requires n < |members| && IsNames(names, members, n)
    ensures Joined(members[n].Path()) in names <==> exists j :: 0 <= j < n && members[j].Path() == members[n].Path()
    ensures IsNames(names + {Joined(members[n].Path())}, members, n + 1)
  {
    var path := members[n].Path();
    hide PartsOf;
    if j :| 0 <= j < n && Joined(members[j].Path()) == Joined(path) {
      Injective(members[j].Path(), path);
    }
  }

  /** The variables of the loop, after i members. */
  ghost predicate Extracting(d: Destination, names: set<string>, roots: set<string>, total: nat,
                             members: seq<Member>, i: nat)
    requires i <= |members|
  {
    && Holds(d, members, i) && AllFit(members, i)
    && IsNames(names, members, i) && total == TotalSize(members, i)
    && roots == if i == 0 then {} else {BUNDLE_ROOT}
  }

  /** What one round of the loop does to the variables. */
  method ExtractNext(d: Destination, names: set<string>, roots: set<string>, total: nat,
                     ghost members: seq<Member>, ghost i: nat, m: Member)
    returns (d': Destination, names': set<string>, roots': set<string>, total': nat, refusal: Option<Refusal>)
    requires i < |members| && m == members[i] && Extracting(d, names, roots, total, members, i)
    ensures refusal.None? <==> Fits(members, i)
    ensures refusal.None? ==> Extracting(d', names', roots', total', members, i + 1)
  {
    hide IsSafe, PartsOf, Joined, Holds, IsNames, Placeable, Placed, DirAt, FileAt, NoFileAbove;
    d', names', roots', total' := d, names, roots, total;
    var path := PartsOf(m.name);
    if !IsSafe(m.name) { return d, names, roots, total, Some(UnsafeName); }
    var canonical := Joined(path);
    NamesDistinct(names, members, i);
    if canonical in names { return d, names, roots, total, Some(DuplicateName); }
    names' := names + {canonical};
    roots' := roots + {path[0]};
    if path[0] != BUNDLE_ROOT || m.body.Unsupported? { return d, names', roots', total, Some(UnsupportedMember); }
    total' := total + m.Size();
    if total' > SIZE_LIMIT { return d, names', roots', total', Some(TooLarge); }
    PlaceableFits(d, members, i);
    FileFree(d, members, i);
    d', refusal := ExtractMember(d, m);
    if refusal.None? { PlacedHolds(d, members, i); }
  }

  lemma FileFree(d: Destination, members: seq<Member>, n: nat)
    requires n < |members| && Holds(d, members, n)
    requires forall j | 0 <= j < n :: members[j].Path() != members[n].Path()
    ensures members[n].Path() !in d.files
  {
  }

  lemma NothingExtracted(members: seq<Member>)
    ensures Extracting(Destination(map[], {}), {}, {}, 0, members, 0)
  {
  }

  /** extract_archive. A sequence of members is accepted exactly when it is not empty and each
      member fits those before it; then exactly the members' files are there. */
  method ExtractArchive(members: seq<Member>) returns (d: Destination, refusal: Option<Refusal>)
    ensures refusal.None? <==> members != [] && AllFit(members, |members|)
    ensures refusal.None? ==> Holds(d, members, |members|)
    ensures refusal.None? ==> TotalSize(members, |members|) <= 8589934592
  {
    WithinLimit(members);
    hide Fits, Holds;
    var names: set<string> := {};
    var roots: set<string> := {};
    var total := 0;
    d := Destination(map[], {});
    NothingExtracted(members);
    for i := 0 to |members|
      invariant Extracting(d, names, roots, total, members, i)
    {
      d, names, roots, total, refusal := ExtractNext(d, names, roots, total, members, i, members[i]);
      if refusal.Some? { return; }
    }
    if roots != {BUNDLE_ROOT} { return d, Some(UnexpectedRoot); }
    return d, None;
  }

  lemma WithinLimit(members: seq<Member>)
    ensures AllFit(members, |members|) ==> TotalSize(members, |members|) <= 8589934592
  {
    if members != [] && AllFit(members, |members|) {
      assert Fits(members, |members| - 1);
    }
  }

  // ----- what acceptance promises -------------------------------------------------------------------

  /** Nothing is extracted outside the one root. */
  lemma Contained(d: Destination, members: seq<Member>, p: Parts)
    requires AllFit(members, |members|) && Holds(d, members, |members|)
    requires p in d.files || p in d.dirs
    ensures p != [] && p[0] == "hidloom-buildroot-m6-compliance" && ".." !in p
  {
    hide PartsOf, IsSafe, Joined;
    var j :| 0 <= j < |members| && p <= members[j].Path() && (p == [] ==> members[j].Path() == []);
    assert Fits(members, j);
    SafeParts(members[j].name);
    assert p != [] ==> p[0] == members[j].Path()[0];
    assert forall part | part in p :: part in members[j].Path();
  }

  lemma SafeParts(name: string)
    requires IsSafe(name)
    ensures PartsOf(name) != [] && ".." !in PartsOf(name)
  {
  }

  /** The members leave no choice: each file has one content. */
  lemma {:induction false} OneContent(d: Destination, e: Destination, members: seq<Member>, n: nat, j: nat)
    requires n <= |members| && Holds(d, members, |members|) && Holds(e, members, |members|)
    requires j < n && members[j].MakesFile()
    ensures members[j].Path() in d.files && members[j].Path() in e.files
    ensures d.files[members[j].Path()] == e.files[members[j].Path()]
    decreases j
  {
    hide PartsOf;
    assert HasContent(d, members, j) && HasContent(e, members, j);
    if members[j].body.Link? {
      var target := PartsOf(members[j].body.target);
      var k :| 0 <= k < j && members[k].Path() == target && members[k].MakesFile();
      OneContent(d, e, members, n, k);
    }
  }

  lemma OneDestination(d: Destination, e: Destination, members: seq<Member>)
    requires Holds(d, members, |members|) && Holds(e, members, |members|)
    ensures d == e
  {
    hide PartsOf, DirAt;
    assert forall p: Parts :: p in d.files <==> p in e.files;
    forall p | p in d.files
      ensures d.files[p] == e.files[p]
    {
      var j :| 0 <= j < |members| && members[j].Path() == p && members[j].MakesFile();
      OneContent(d, e, members, |members|, j);
    }
    assert d.files == e.files;
    assert d.dirs == e.dirs;
  }
}
