/** tools/boot_marker_baseline.py: the system calls of the bounded snapshot.  A script says of
    every call whether it goes as the tree has it, fails, or shows a concurrent change. */
module TreeKernel {
  import opened Ordering
  import opened Options
  import opened TreeWalk

  /** How one call goes: as in the tree, not at all, or with another outcome than the tree's. */
  datatype Answer =
    | Fine
    | Fails
    | Opens(place: Parts)
    | Reports(stat: Stat)
    | Lists(names: set<string>)
    | Gives(count: nat)

  /** How many of the first n calls did not go as the tree has it. */
  function Faulty(script: nat -> Answer, n: nat): nat {
    if n == 0 then 0 else Faulty(script, n - 1) + if script(n - 1).Fine? then 0 else 1
  }

  /** What open accepts without following links; with O_DIRECTORY, directories only. */
  predicate Openable(kind: Kind, directory: bool) {
    kind == Directory || (kind == RegularFile && !directory)
  }

  /** What call n of the script sees when it examines a place. */
  function StatSeen(tree: Tree, script: nat -> Answer, n: nat, place: Parts): Option<Stat> {
    match script(n)
    case Fine => if place in tree then Some(tree[place]) else None
    case Reports(stat) => Some(stat)
    case _ => None
  }

  /** What call n of the script opens when it is asked for a path. */
  function OpenSeen(tree: Tree, script: nat -> Answer, n: nat, path: Parts, directory: bool): Option<Parts> {
    match script(n)
    case Fine => if path in tree && Openable(tree[path].kind, directory) then Some(path) else None
    case Opens(place) => Some(place)
    case _ => None
  }

  /** Undisturbed, a path is opened as it is: a directory, or without O_DIRECTORY a regular file, and
      never what a link leads to. */
  lemma OpensItself(tree: Tree, script: nat -> Answer, n: nat, path: Parts, directory: bool)
    requires script(n).Fine?
    ensures OpenSeen(tree, script, n, path, directory)
      == if path in tree && (tree[path].kind == Directory || (tree[path].kind == RegularFile && !directory))
         then Some(path) else None
    ensures StatSeen(tree, script, n, path) == if path in tree then Some(tree[path]) else None
  {
  }

  /** Descriptor places are only added. */
  ghost predicate Grown(before: map<nat, Parts>, after: map<nat, Parts>) {
    forall fd | fd in before :: fd in after && after[fd] == before[fd]
  }

  class Kernel {
    const tree: Tree
    const script: nat -> Answer
    var open: set<nat>
    var at: map<nat, Parts>
    var pos: map<nat, nat>
    var next: nat
    var calls: nat
    /** Calls that did not go as the tree has it. */
    ghost var faults: nat
    /** Calls of fstat and dup that failed. */
    ghost var unexamined: nat
    /** Bytes handed out by read. */
    ghost var delivered: nat

    ghost predicate Valid()
      reads this
    {
      && open <= at.Keys && open <= pos.Keys && (forall fd | fd in at :: fd < next)
      && faults == Faulty(script, calls)
    }

    constructor (tree: Tree, script: nat -> Answer)
      ensures Valid() && this.tree == tree && this.script == script
      ensures open == {} && calls == 0 && faults == 0 && unexamined == 0 && delivered == 0
    {
      this.tree, this.script := tree, script;
      open, at, pos, next, calls, faults, unexamined, delivered := {}, map[], map[], 0, 0, 0, 0, 0;
    }

    /** A descriptor, once given out, stands for the same place for ever: numbers are not reused. */
    twostate predicate Keeps()
      reads this
    {
      && old(calls) <= calls && old(faults) <= faults && old(unexamined) <= unexamined && old(delivered) <= delivered
      && Grown(old(at), at)
    }

    /** Exactly one call was made. */
    twostate predicate Called()
      reads this
    {
      calls == old(calls) + 1 && faults == old(faults) + if script(old(calls)).Fine? then 0 else 1
    }

    method Call() returns (answer: Answer)
      requires Valid()
      modifies this`calls, this`faults
      ensures Valid() && Called() && answer == script(old(calls))
    {
      answer := script(calls);
      faults := faults + if answer.Fine? then 0 else 1;
      calls := calls + 1;
    }

    /** A new descriptor for a place. */
    method Give(place: Parts) returns (fd: nat)
      requires Valid()
      modifies this`next, this`open, this`at, this`pos
      ensures Valid() && Grown(old(at), at)
      ensures fd !in old(open) && open == old(open) + {fd} && at[fd] == place && pos[fd] == 0
    {
      fd := next;
      next, open, at, pos := next + 1, open + {fd}, at[fd := place], pos[fd := 0];
    }

    /** open, with O_NOFOLLOW and perhaps O_DIRECTORY. */
    method Open(parts: Parts, directory: bool) returns (ok: bool, fd: nat)
      requires Valid()
      modifies this
      ensures Valid() && Keeps() && Called() && delivered == old(delivered) && unexamined == old(unexamined)
      ensures if ok then fd !in old(open) && open == old(open) + {fd} && pos[fd] == 0 else open == old(open)
      ensures OpenSeen(tree, script, old(calls), parts, directory) == if ok then Some(at[fd]) else None
    {
      var answer := Call();
      var place := parts;
      ok, fd := answer.Fine? && parts in tree && Openable(tree[parts].kind, directory), 0;
      if answer.Opens? { ok, place := true, answer.place; }
      if ok { fd := Give(place); }
    }

    method OpenAt(dir: nat, name: string, directory: bool) returns (ok: bool, fd: nat)
      requires Valid() && dir in open
      modifies this
      ensures Valid() && Keeps() && Called() && delivered == old(delivered) && unexamined == old(unexamined)
      ensures if ok then fd !in old(open) && open == old(open) + {fd} && pos[fd] == 0 else open == old(open)
      ensures OpenSeen(tree, script, old(calls), old(at)[dir] + [name], directory) == if ok then Some(at[fd]) else None
    {
      ok, fd := Open(at[dir] + [name], directory);
    }

    method Dup(fd: nat) returns (ok: bool, copy: nat)
      requires Valid() && fd in open
      modifies this
      ensures Valid() && Keeps() && Called() && delivered == old(delivered)
      ensures unexamined == old(unexamined) + if ok then 0 else 1
      ensures if ok then copy !in old(open) && open == old(open) + {copy} && at[copy] == at[fd] else open == old(open)
      ensures ok <==> script(old(calls)).Fine?
    {
      var answer := Call();
      ok, copy := answer.Fine?, 0;
      if ok { copy := Give(at[fd]); }
      unexamined := unexamined + if ok then 0 else 1;
    }

    method Close(fd: nat)
      requires Valid() && fd in open
      modifies this`open
      ensures Valid() && open == old(open) - {fd}
    {
      open := open - {fd};
    }

    /** lstat of a path, or stat below a descriptor. */
    method StatPath(parts: Parts) returns (ok: bool, s: Stat)
      requires Valid()
      modifies this`calls, this`faults
      ensures Valid() && Keeps() && Called()
      ensures StatSeen(tree, script, old(calls), parts) == if ok then Some(s) else None
    {
      var answer := Call();
      ok, s := false, Stat(Special, 0, 0, 0, 0, 0, 0, 0);
      if answer.Reports? {
        ok, s := true, answer.stat;
      } else if answer.Fine? && parts in tree {
        ok, s := true, tree[parts];
      }
    }

    method StatAt(dir: nat, name: string) returns (ok: bool, s: Stat)
      requires Valid() && dir in open
      modifies this`calls, this`faults
      ensures Valid() && Keeps() && Called()
      ensures StatSeen(tree, script, old(calls), at[dir] + [name]) == if ok then Some(s) else None
    {
      ok, s := StatPath(at[dir] + [name]);
    }

    method Fstat(fd: nat) returns (ok: bool, s: Stat)
      requires Valid() && fd in open
      modifies this`calls, this`faults, this`unexamined
      ensures Valid() && Keeps() && Called()
      ensures unexamined == old(unexamined) + if ok then 0 else 1
      ensures StatSeen(tree, script, old(calls), at[fd]) == if ok then Some(s) else None
    {
      ok, s := StatPath(at[fd]);
      unexamined := unexamined + if ok then 0 else 1;
    }

    /** At most `limit` names of a directory, in no particular order. */
    method Scandir(dir: nat, limit: nat) returns (ok: bool, names: seq<string>)
      requires Valid() && dir in open
      modifies this`calls, this`faults
      ensures Valid() && Keeps() && Called()
      ensures Distinct(names) && |names| <= limit
      ensures script(old(calls)).Fine? ==> (
        && ok && (forall name | name in names :: name in Children(tree, at[dir]))
        && (|names| < limit ==> forall name | name in Children(tree, at[dir]) :: name in names))
    {
      var answer := Call();
      ok, names := answer.Fine? || answer.Lists?, [];
      var rest := if answer.Lists? then answer.names else Children(tree, at[dir]);
      ghost var all := rest;
      if !ok { return; }
      while rest != {} && |names| < limit
        invariant Distinct(names) && |names| <= limit && rest <= all
        invariant forall name :: name in names <==> name in all && name !in rest
        decreases |rest|
      {
        var name :| name in rest;
        names, rest := names + [name], rest - {name};
      }
    }

    /** read: between one byte and all that was asked for, nothing at the end of the file. */
    method Read(fd: nat, wanted: nat) returns (ok: bool, got: nat)
      requires Valid() && fd in open
      modifies this`calls, this`faults, this`pos, this`delivered
      ensures Valid() && Keeps() && Called()
      ensures got <= wanted && delivered == old(delivered) + got && (!ok ==> got == 0) && pos[fd] == old(pos)[fd] + got
      ensures script(old(calls)).Fine? && at[fd] in tree ==> (
        && ok
        && if old(pos)[fd] < tree[at[fd]].size
          then got <= tree[at[fd]].size - old(pos)[fd] && (wanted > 0 ==> got > 0)
          else got == 0)
    {
      var answer := Call();
      ok, got := answer.Fine? || answer.Gives?, 0;
      if answer.Gives? {
        got := if answer.count < wanted then answer.count else wanted;
      } else if answer.Fine? && at[fd] in tree && pos[fd] < tree[at[fd]].size && wanted > 0 {
        var left := tree[at[fd]].size - pos[fd];
        got :| 1 <= got <= wanted && got <= left;
      }
      pos, delivered := pos[fd := pos[fd] + got], delivered + got;
    }
  }

  /** While every call goes as the tree has it, no fault is counted; and one call that does not
      is one fault. */
  lemma {:induction false} OneFault(script: nat -> Answer, bad: nat, n: nat)
    requires forall i: nat | i != bad :: script(i).Fine?
    requires !script(bad).Fine?
    ensures Faulty(script, n) == if n <= bad then 0 else 1
  {
    if n > 0 { OneFault(script, bad, n - 1); }
  }
}
