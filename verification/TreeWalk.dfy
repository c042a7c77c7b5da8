/** The listing a bounded breadth-first walk of a fixed tree is meant to produce, apart from
    descriptors and failures. */
module TreeWalk {
  import opened Ordering

  type Parts = seq<string>

  datatype Kind = RegularFile | Directory | Link | Special

  /** The os.stat_result fields the identity checks look at. */
  datatype Stat = Stat(kind: Kind, dev: int, ino: int, uid: int, gid: int, size: nat, mtime: int, ctime: int)

  type Tree = map<Parts, Stat>

  predicate SafeName(name: string) {
    name != "" && name != "." && name != ".." && '/' !in name
  }

  /** Every node but the root hangs under a directory by a proper name. */
  predicate IsTree(tree: Tree) {
    && [] in tree && tree[[]].kind == Directory
    && forall p | p in tree && p != [] ::
         Parent(p) in tree && tree[Parent(p)].kind == Directory && SafeName(p[|p| - 1])
  }

  lemma SafeNamesAre(name: string)
    ensures SafeName(name) <==> name !in {"", ".", ".."} && forall i | 0 <= i < |name| :: name[i] != '/'
  {
  }

  /** A root alone is a tree, and a new entry of a directory leaves it one. */
  lemma TreeGrows(tree: Tree, dir: Parts, name: string, s: Stat)
    ensures s.kind == Directory ==> IsTree(map[[] := s])
    ensures IsTree(tree) && dir in tree && tree[dir].kind == Directory && SafeName(name) && dir + [name] !in tree ==>
      IsTree(tree[dir + [name] := s])
    ensures dir + [name] in tree && IsTree(tree) ==> dir in tree && tree[dir].kind == Directory && SafeName(name)
  {
    var path := dir + [name];
    assert Parent(path) == dir && path[|path| - 1] == name && path != [];
  }

  function Parent(p: Parts): Parts
    requires p != []
  {
    p[..|p| - 1]
  }

  function Children(tree: Tree, dir: Parts): set<string> {
    set p | p in tree && p != [] && Parent(p) == dir :: p[|p| - 1]
  }

  function Max(a: int, b: int): int { if a < b then b else a }

  /** The descendants of the root that the walk should list. */
  function Target(tree: Tree, maxDepth: nat): set<Parts> {
    set p | p in tree && 1 <= |p| <= Max(1, maxDepth)
  }

  predicate IsQueueable(tree: Tree, maxDepth: nat, p: Parts) {
    p in tree && tree[p].kind == Directory && |p| < maxDepth
  }

  /** The names of `dir` put under it. */
  function Under(dir: Parts, names: seq<string>): (paths: seq<Parts>)
    ensures |paths| == |names|
  {
    seq(|names|, i requires 0 <= i < |names| => dir + [names[i]])
  }

  /** The listed names that are directories still within the depth bound, in order. */
  function Queued(tree: Tree, maxDepth: nat, dir: Parts, names: seq<string>): (queued: seq<Parts>) {
    if names == [] then []
    else
      var p := dir + [names[0]];
      (if IsQueueable(tree, maxDepth, p) then [p] else []) + Queued(tree, maxDepth, dir, names[1..])
  }

  /** The state of the walk between two directories: `done` are the expanded directories. */
  ghost predicate Walk(tree: Tree, maxDepth: nat, listed: seq<Parts>, pending: seq<Parts>, done: set<Parts>) {
    && Distinct(listed) && Distinct(pending)
    && (forall p :: p in listed <==> p in Target(tree, maxDepth) && Parent(p) in done)
    && (forall p | p in pending :: p !in done)
    && (forall p :: p in pending || p in done <==> p == [] || (p in listed && IsQueueable(tree, maxDepth, p)))
  }

  lemma WalkStarts(tree: Tree, maxDepth: nat)
    ensures Walk(tree, maxDepth, [], [[]], {})
  {
  }

  lemma ChildIsTarget(tree: Tree, maxDepth: nat, dir: Parts, name: string)
    requires IsTree(tree) && name in Children(tree, dir) && (dir == [] || IsQueueable(tree, maxDepth, dir))
    ensures dir + [name] in Target(tree, maxDepth) && Parent(dir + [name]) == dir
  {
    var p :| p in tree && p != [] && Parent(p) == dir && p[|p| - 1] == name;
    assert p == dir + [name];
  }

  lemma {:induction false} QueuedMembers(tree: Tree, maxDepth: nat, dir: Parts, names: seq<string>)
    requires Distinct(names)
    ensures Distinct(Queued(tree, maxDepth, dir, names))
    ensures forall p ::
      p in Queued(tree, maxDepth, dir, names) <==> p in Under(dir, names) && IsQueueable(tree, maxDepth, p)
  {
    if names != [] {
      var p, rest := dir + [names[0]], Queued(tree, maxDepth, dir, names[1..]);
      QueuedMembers(tree, maxDepth, dir, names[1..]);
      UnderMembers(dir, names);
      UnderMembers(dir, names[1..]);
      assert names == [names[0]] + names[1..];
      assert p !in rest by {
        assert p in Under(dir, names[1..]) <==> names[0] in names[1..];
      }
    }
  }

  lemma UnderMembers(dir: Parts, names: seq<string>)
    requires Distinct(names)
    ensures Distinct(Under(dir, names))
    ensures forall p :: p in Under(dir, names) <==> |p| == |dir| + 1 && p[..|dir|] == dir && p[|dir|] in names
  {
    var paths := Under(dir, names);
    forall i, j | 0 <= i < j < |names|
      ensures paths[i] != paths[j]
    {
      assert paths[i][|dir|] == names[i] && paths[j][|dir|] == names[j];
    }
    forall p
      ensures p in paths <==> |p| == |dir| + 1 && p[..|dir|] == dir && p[|dir|] in names
    {
      if p in paths {
        var i :| 0 <= i < |names| && paths[i] == p;
      }
      if |p| == |dir| + 1 && p[..|dir|] == dir && p[|dir|] in names {
        var i :| 0 <= i < |names| && names[i] == p[|dir|];
        assert p == dir + [names[i]] == paths[i];
      }
    }
  }

  /** Expanding the first pending directory completely. */
  lemma WalkExpands(tree: Tree, maxDepth: nat, listed: seq<Parts>, pending: seq<Parts>,
                    done: set<Parts>, names: seq<string>)
    requires IsTree(tree) && Walk(tree, maxDepth, listed, pending, done) && pending != []
    requires Distinct(names) && forall name :: name in names <==> name in Children(tree, pending[0])
    ensures var dir := pending[0];
      Walk(tree, maxDepth, listed + Under(dir, names), pending[1..] + Queued(tree, maxDepth, dir, names), done + {dir})
  {
    var dir := pending[0];
    var entries, queued := Under(dir, names), Queued(tree, maxDepth, dir, names);
    assert pending == [dir] + pending[1..] && dir in pending;
    QueuedMembers(tree, maxDepth, dir, names);
    NewEntries(tree, maxDepth, dir, names);
    UnderMembers(dir, names);
    FirstIsAlone(pending);
    assert forall p | p in entries :: p !in listed && p != [];
    AppendDistinct(listed, entries);
    hide Under, Queued, Target, Children, IsTree, Distinct, Parent;
    assert forall p | p in queued :: p in entries;
    AppendDistinct(pending[1..], queued);
    WalkMoves(tree, maxDepth, listed, pending, done, dir, listed + entries,
      pending[1..] + queued, set p | p in entries);
  }

  lemma WalkMoves(tree: Tree, maxDepth: nat, listed: seq<Parts>, pending: seq<Parts>, done: set<Parts>, dir: Parts,
                  listed': seq<Parts>, pending': seq<Parts>, entries: set<Parts>)
    requires Walk(tree, maxDepth, listed, pending, done) && dir in pending
    requires Distinct(listed') && Distinct(pending')
    requires forall p :: p in listed' <==> p in listed || p in entries
    requires forall p ::
      p in pending' <==> (p in pending && p != dir) || (p in entries && IsQueueable(tree, maxDepth, p))
    requires forall p :: p in entries <==> p in Target(tree, maxDepth) && Parent(p) == dir
    requires forall p | p in entries :: p !in listed && p != []
    ensures Walk(tree, maxDepth, listed', pending', done + {dir})
  {
  }

  lemma FirstIsAlone<T>(s: seq<T>)
    requires Distinct(s) && s != []
    ensures Distinct(s[1..]) && forall x :: x in s[1..] <==> x in s && x != s[0]
  {
  }

  lemma AppendDistinct<T>(a: seq<T>, b: seq<T>)
    requires Distinct(a) && Distinct(b) && forall x | x in b :: x !in a
    ensures Distinct(a + b) && forall x :: x in a + b <==> x in a || x in b
  {
    forall i, j | 0 <= i < j < |a + b|
      ensures (a + b)[i] != (a + b)[j]
    {
      if j >= |a| {
        assert (a + b)[j] == b[j - |a|] && b[j - |a|] in b;
        if i < |a| { assert a[i] in a; }
      }
    }
  }

  lemma NewEntries(tree: Tree, maxDepth: nat, dir: Parts, names: seq<string>)
    requires IsTree(tree) && (dir == [] || IsQueueable(tree, maxDepth, dir))
    requires Distinct(names) && forall name :: name in names <==> name in Children(tree, dir)
    ensures forall p :: p in Under(dir, names) <==> p in Target(tree, maxDepth) && Parent(p) == dir
  {
    UnderMembers(dir, names);
    forall p
      ensures p in Under(dir, names) <==> p in Target(tree, maxDepth) && Parent(p) == dir
    {
      if p in Under(dir, names) {
        ChildIsTarget(tree, maxDepth, dir, p[|dir|]);
        assert p == dir + [p[|dir|]];
      }
    }
  }

  /** With nothing pending everything within the bounds has been listed. */
  lemma WalkEnds(tree: Tree, maxDepth: nat, listed: seq<Parts>, done: set<Parts>)
    requires IsTree(tree) && Walk(tree, maxDepth, listed, [], done)
    ensures (set p | p in listed) == Target(tree, maxDepth)
    ensures |listed| == |Target(tree, maxDepth)|
  {
    forall p | p in Target(tree, maxDepth)
      ensures p in listed
    {
      ReachesAll(tree, maxDepth, listed, done, p);
    }
    DistinctCount(listed);
  }

  lemma {:induction false} ReachesAll(tree: Tree, maxDepth: nat, listed: seq<Parts>, done: set<Parts>, p: Parts)
    requires IsTree(tree) && Walk(tree, maxDepth, listed, [], done) && p in Target(tree, maxDepth)
    ensures p in listed
    decreases |p|
  {
    var parent := Parent(p);
    if parent != [] {
      ReachesAll(tree, maxDepth, listed, done, parent);
    }
    assert parent in done;
  }

  /** More names than the budget leaves means the tree has more entries than the budget. */
  lemma WalkOverflows(tree: Tree, maxDepth: nat, listed: seq<Parts>, pending: seq<Parts>,
                      done: set<Parts>, names: seq<string>)
    requires IsTree(tree) && Walk(tree, maxDepth, listed, pending, done) && pending != []
    requires Distinct(names) && forall name | name in names :: name in Children(tree, pending[0])
    ensures |listed| + |names| <= |Target(tree, maxDepth)|
    ensures Distinct(listed + Under(pending[0], names))
    ensures forall p | p in listed + Under(pending[0], names) :: p in Target(tree, maxDepth)
  {
    var dir := pending[0];
    var all := listed + Under(dir, names);
    assert dir in pending;
    UnderMembers(dir, names);
    forall p | p in Under(dir, names)
      ensures p in Target(tree, maxDepth) && p !in listed
    {
      ChildIsTarget(tree, maxDepth, dir, p[|dir|]);
      assert p == dir + [p[|dir|]];
    }
    hide Under, Target, Children, IsTree, Distinct, Parent;
    AppendDistinct(listed, Under(dir, names));
    DistinctCount(all);
    SubsetSize((set p | p in all), Target(tree, maxDepth));
  }

  // ----- the order of the listing -------------------------------------------------------------------

  /** Shallower paths come first; at one depth, part by part, the first different names decide. */
  predicate PathLess(a: Parts, b: Parts) { |a| < |b| || (|a| == |b| && PartsLess(a, b)) }

  lemma PathOrder()
    ensures StrictTotalOrder(PathLess)
  {
    PartsOrder();
    hide PartsLess;
  }

  /** In this order depths never decrease; of two entries with one parent the earlier has the
      smaller name; and the entries of an earlier directory come before those of a later one. */
  lemma BreadthFirst(listed: seq<Parts>, i: nat, j: nat)
    requires Increasing(PathLess, listed) && i < j < |listed|
    ensures |listed[i]| <= |listed[j]| && listed[i] != listed[j]
    ensures |listed[i]| == |listed[j]| && listed[i] != [] ==> (
      var p, q := Parent(listed[i]), Parent(listed[j]);
      if p == q then StringLess(listed[i][|p|], listed[j][|q|]) else PathLess(p, q))
  {
    var a, b := listed[i], listed[j];
    assert PathLess(a, b);
    PathOrder();
    if |a| == |b| && a != [] {
      var p, q := Parent(a), Parent(b);
      var x, y := a[|p|], b[|q|];
      assert a == p + [x] && b == q + [y];
      StringOrder();
      PartsOrder();
      if p == q {
        LastOf(p, x, y);
      } else if PathLess(q, p) {
        FrontDecides(q, p, y, x);
      }
    }
  }

  lemma LastOf(p: Parts, x: string, y: string)
    requires PartsLess(p + [x], p + [y])
    ensures StringLess(x, y)
  {
    StringOrder();
    PartsOrder();
    if x != y {
      DifferenceDecides(StringLess, p, x, y, [], []);
      assert p + [x] + [] == p + [x] && p + [y] + [] == p + [y];
    }
  }

  /** Under earlier directories of the same depth come earlier paths. */
  lemma {:induction false} FrontDecides(p: Parts, q: Parts, x: string, y: string)
    requires |p| == |q| && PartsLess(p, q)
    ensures PartsLess(p + [x], q + [y])
  {
    assert Before(StringLess, p, q);
    BeforeExtends(StringLess, p, q, [x], [y]);
    assert Before(StringLess, p + [x], q + [y]);
  }

  lemma {:induction false} BeforeExtends<T>(less: (T, T) -> bool, a: seq<T>, b: seq<T>, u: seq<T>, v: seq<T>)
    requires |a| == |b| && Before(less, a, b)
    ensures Before(less, a + u, b + v)
  {
    assert (a + u)[1..] == a[1..] + u && (b + v)[1..] == b[1..] + v;
    if a[0] == b[0] {
      BeforeExtends(less, a[1..], b[1..], u, v);
    }
  }

  lemma ChildLess(p: Parts, q: Parts, x: string, y: string)
    requires PathLess(p, q)
    ensures PathLess(p + [x], q + [y])
  {
    if |p| == |q| {
      FrontDecides(p, q, x, y);
    }
  }

  /** Sorted names make sorted entries. */
  lemma UnderIncreases(dir: Parts, names: seq<string>)
    requires Increasing(StringLess, names)
    ensures Increasing(PathLess, Under(dir, names))
  {
    StringOrder();
    var paths := Under(dir, names);
    forall i, j | 0 <= i < j < |paths|
      ensures PathLess(paths[i], paths[j])
    {
      LastDecides(StringLess, dir, names[i], names[j]);
    }
  }

  /** `some` is `all` with some of its members left out. */
  predicate Picked(some: seq<Parts>, all: seq<Parts>) {
    if all == [] then some == []
    else
      var n := |all| - 1;
      Picked(some, all[..n]) || (some != [] && some[|some| - 1] == all[n] && Picked(some[..|some| - 1], all[..n]))
  }

  lemma PickedGrows(some: seq<Parts>, all: seq<Parts>, p: Parts)
    requires Picked(some, all)
    ensures Picked(some, all + [p]) && Picked(some + [p], all + [p])
  {
    assert (all + [p])[..|all|] == all && (some + [p])[..|some|] == some;
  }

  lemma {:induction false} PickedIncreases(some: seq<Parts>, all: seq<Parts>)
    requires Picked(some, all) && Increasing(PathLess, all)
    ensures Increasing(PathLess, some) && forall p | p in some :: p in all
  {
    hide PathLess;
    if all != [] {
      var n := |all| - 1;
      if Picked(some, all[..n]) {
        PickedIncreases(some, all[..n]);
      } else {
        var m := |some| - 1;
        PickedIncreases(some[..m], all[..n]);
        forall i, j | 0 <= i < j < |some|
          ensures PathLess(some[i], some[j])
        {
          if j < m {
            assert some[..m][i] == some[i] && some[..m][j] == some[j];
          } else {
            assert some[i] in some[..m];
            var k :| 0 <= k < n && all[k] == some[i];
          }
        }
        assert forall p | p in some :: p in some[..m] || p == all[n];
      }
    }
  }

  /** Between two directories: what is listed and what is queued is in order, and every listed
      entry hangs under a directory before the next one. */
  ghost predicate InOrder(listed: seq<Parts>, pending: seq<Parts>) {
    && Increasing(PathLess, listed) && Increasing(PathLess, pending)
    && (forall q | q in pending :: q == [] || q in listed)
    && (pending != [] ==> forall p | p in listed :: p != [] && PathLess(Parent(p), pending[0]))
  }

  lemma JoinIncreases(a: seq<Parts>, b: seq<Parts>)
    requires Increasing(PathLess, a) && Increasing(PathLess, b) && forall p, q | p in a && q in b :: PathLess(p, q)
    ensures Increasing(PathLess, a + b)
  {
    hide PathLess;
    forall i, j | 0 <= i < j < |a + b|
      ensures PathLess((a + b)[i], (a + b)[j])
    {
      if i < |a| <= j {
        assert a[i] in a && b[j - |a|] in b;
      }
    }
  }

  lemma OrderGoesOn(listed: seq<Parts>, pending: seq<Parts>, names: seq<string>, queued: seq<Parts>)
    requires InOrder(listed, pending) && pending != [] && Increasing(StringLess, names)
    requires Picked(queued, Under(pending[0], names))
    ensures InOrder(listed + Under(pending[0], names), pending[1..] + queued)
  {
    var dir, entries, rest := pending[0], Under(pending[0], names), pending[1..];
    PathOrder();
    UnderIncreases(dir, names);
    PickedIncreases(queued, entries);
    NextInOrder(listed, pending, entries);
    assert forall q | q in entries :: q != [] && Parent(q) == dir;
    hide StrictTotalOrder, Under, Picked, PathLess;
    JoinIncreases(listed, entries);
    assert forall q | q in rest :: q in pending;
    assert forall q | q in queued :: q in entries;
    assert forall p, q | p in rest && q in queued :: PathLess(p, q);
    JoinIncreases(rest, queued);
    FirstIsNext(listed, pending, entries, queued);
  }

  /** Everything listed or queued before comes before the entries of the next directory. */
  lemma NextInOrder(listed: seq<Parts>, pending: seq<Parts>, entries: seq<Parts>)
    requires InOrder(listed, pending) && pending != []
    requires forall q | q in entries :: q != [] && Parent(q) == pending[0]
    ensures forall p, q | p in listed && q in entries :: PathLess(p, q)
    ensures forall p | p in pending[1..] :: PathLess(pending[0], p) && p in listed
    ensures forall p, q | p in pending[1..] && q in entries :: PathLess(p, q)
  {
    forall p, q | p in listed && q in entries
      ensures PathLess(p, q)
    {
      assert p == Parent(p) + [p[|p| - 1]] && q == Parent(q) + [q[|q| - 1]];
      ChildLess(Parent(p), Parent(q), p[|p| - 1], q[|q| - 1]);
    }
    forall p | p in pending[1..]
      ensures PathLess(pending[0], p) && p in listed
    {
      var i :| 0 <= i < |pending[1..]| && pending[1..][i] == p;
      assert PathLess(pending[0], pending[i + 1]);
      assert p in pending && p != [];
    }
  }

  lemma FirstIsNext(listed: seq<Parts>, pending: seq<Parts>, entries: seq<Parts>, queued: seq<Parts>)
    requires InOrder(listed, pending) && pending != [] && StrictTotalOrder(PathLess)
    requires forall q | q in entries :: q != [] && Parent(q) == pending[0]
    requires forall q | q in queued :: q in entries
    requires forall p | p in pending[1..] :: PathLess(pending[0], p)
    ensures var next := pending[1..] + queued;
      next != [] ==> forall p | p in listed + entries :: p != [] && PathLess(Parent(p), next[0])
  {
    var next := pending[1..] + queued;
    if next != [] {
      var dir := pending[0];
      assert PathLess(dir, next[0]) by {
        if pending[1..] == [] {
          assert next[0] == queued[0] && queued[0] in queued;
        } else {
          assert next[0] == pending[1..][0] && next[0] in pending[1..];
        }
      }
      hide PathLess;
      forall p | p in listed + entries
        ensures p != [] && PathLess(Parent(p), next[0])
      {
        if p in listed { assert PathLess(Parent(p), dir); } else { assert p in entries; }
      }
    }
  }

  lemma {:induction false} SubsetSize<T>(a: set<T>, b: set<T>)
    requires a <= b
    ensures |a| <= |b|
  {
    if a != {} {
      var x :| x in a;
      SubsetSize(a - {x}, b - {x});
    }
  }
}
