/** script/apply_device_profile.py: the systemctl calls of an apply, the wait for sockets, and
    what the completed calls make of a unit. */
module Services {
  datatype Operation = Systemctl(verb: string, units: seq<string>) | AwaitSockets(paths: seq<string>)

  datatype Attempt = Attempt(operation: Operation, completed: bool)

  function Completed(operations: seq<Operation>): seq<Attempt> {
    seq(|operations|, i requires 0 <= i < |operations| => Attempt(operations[i], true))
  }

  /** `now` continues `before` with the first of the operations, in order; only the last attempt
      may have failed. */
  ghost predicate Continues(before: seq<Attempt>, now: seq<Attempt>, operations: seq<Operation>) {
    && |before| <= |now| <= |before| + |operations| && now[..|before|] == before
    && forall i | |before| <= i < |now| ::
      now[i].operation == operations[i - |before|] && (i + 1 < |now| ==> now[i].completed)
  }

  class ServiceManager {
    var log: seq<Attempt>
    ghost var faults: nat

    constructor ()
      ensures log == [] && faults == 0
    {
      log, faults := [], 0;
    }

    /** One subprocess call or wait, which is recorded and may fail. */
    method Perform(operation: Operation) returns (ok: bool)
      modifies this
      ensures log == old(log) + [Attempt(operation, ok)]
      ensures faults == old(faults) + if ok then 0 else 1
    {
      ok := *;
      log := log + [Attempt(operation, ok)];
      faults := faults + if ok then 0 else 1;
    }

    /** The operations in order, up to the first that fails. */
    method PerformAll(operations: seq<Operation>) returns (ok: bool)
      modifies this
      ensures Continues(old(log), log, operations)
      ensures old(faults) <= faults && (ok <==> faults == old(faults))
      ensures ok ==> log == old(log) + Completed(operations)
    {
      for i := 0 to |operations|
        invariant log == old(log) + Completed(operations[..i]) && faults == old(faults)
      {
        ok := Perform(operations[i]);
        if !ok { return; }
        assert operations[..i + 1] == operations[..i] + [operations[i]];
      }
      assert operations[..|operations|] == operations;
      ok := true;
    }
  }

  /** The service lists of a profile, in their own order. */
  datatype Policy = Policy(enable: seq<string>, disable: seq<string>, mask: seq<string>, readySockets: seq<string>)

  function Call(verb: string, units: seq<string>): seq<Operation> {
    if units == [] then [] else [Systemctl(verb, units)]
  }

  /** What _apply_profile asks of systemctl, in order. */
  function Operations(policy: Policy, restart: bool): seq<Operation> {
    [Systemctl("daemon-reload", [])]
    + Call("unmask", policy.enable)
    + Call("disable", policy.disable) + (if restart then Call("stop", policy.disable) else [])
    + Call("mask", policy.mask) + (if restart then Call("stop", policy.mask) else [])
    + Call("enable", policy.enable)
    + (if restart then Call("restart", policy.enable) + Call("stop", policy.disable + policy.mask) else [])
    + if restart && policy.readySockets != [] then [AwaitSockets(policy.readySockets)] else []
  }

  /** The calls that have something to act on. */
  function Needed(operations: seq<Operation>): seq<Operation> {
    if operations == [] then []
    else (if HasObject(operations[0]) then [operations[0]] else []) + Needed(operations[1..])
  }

  predicate HasObject(operation: Operation) {
    match operation
    case Systemctl(verb, units) => verb == "daemon-reload" || units != []
    case AwaitSockets(paths) => paths != []
  }

  function Calls(policy: Policy, restart: bool): seq<Operation> {
    if restart then [
      Systemctl("daemon-reload", []), Systemctl("unmask", policy.enable), Systemctl("disable", policy.disable),
      Systemctl("stop", policy.disable), Systemctl("mask", policy.mask), Systemctl("stop", policy.mask),
      Systemctl("enable", policy.enable), Systemctl("restart", policy.enable),
      Systemctl("stop", policy.disable + policy.mask), AwaitSockets(policy.readySockets)]
    else [
      Systemctl("daemon-reload", []), Systemctl("unmask", policy.enable), Systemctl("disable", policy.disable),
      Systemctl("mask", policy.mask), Systemctl("enable", policy.enable)]
  }

  /** The calls in full, with a restart and without; those for no unit and no socket are left out. */
  lemma CallsAre(policy: Policy, restart: bool)
    ensures Operations(policy, restart) == Needed(Calls(policy, restart))
  {
    hide *;
    if restart {
      CallsOfRestart(policy);
    } else {
      CallsOfApply(policy);
    }
  }

  lemma CallsOfApply(policy: Policy)
    ensures Operations(policy, false) == Needed(Calls(policy, false))
  {
    hide Needed, Call;
    ReloadNeeded();
    var reload := [Systemctl("daemon-reload", [])];
    var unmasked := reload + [Systemctl("unmask", policy.enable)];
    var disabled := unmasked + [Systemctl("disable", policy.disable)];
    var masked := disabled + [Systemctl("mask", policy.mask)];
    Adds(reload, "unmask", policy.enable);
    Adds(unmasked, "disable", policy.disable);
    Adds(disabled, "mask", policy.mask);
    Adds(masked, "enable", policy.enable);
    assert Calls(policy, false) == masked + [Systemctl("enable", policy.enable)];
  }

  lemma CallsOfRestart(policy: Policy)
    ensures Operations(policy, true) == Needed(Calls(policy, true))
  {
    hide Needed, Call;
    CallsOfStops(policy);
    var stopped := Stops(policy);
    var enabled := stopped + [Systemctl("enable", policy.enable)];
    var restarted := enabled + [Systemctl("restart", policy.enable)];
    var all := restarted + [Systemctl("stop", policy.disable + policy.mask)];
    Adds(stopped, "enable", policy.enable);
    Adds(enabled, "restart", policy.enable);
    Adds(restarted, "stop", policy.disable + policy.mask);
    AddsWait(all, policy.readySockets);
    assert Calls(policy, true) == all + [AwaitSockets(policy.readySockets)];
  }

  /** The calls of a restart before those for the enabled units. */
  function Stops(policy: Policy): seq<Operation> {
    [Systemctl("daemon-reload", []), Systemctl("unmask", policy.enable), Systemctl("disable", policy.disable),
     Systemctl("stop", policy.disable), Systemctl("mask", policy.mask), Systemctl("stop", policy.mask)]
  }

  lemma CallsOfStops(policy: Policy)
    ensures Needed(Stops(policy)) == [Systemctl("daemon-reload", [])] + Call("unmask", policy.enable)
      + Call("disable", policy.disable) + Call("stop", policy.disable) + Call("mask", policy.mask)
      + Call("stop", policy.mask)
  {
    hide Needed, Call;
    ReloadNeeded();
    var reload := [Systemctl("daemon-reload", [])];
    var unmasked := reload + [Systemctl("unmask", policy.enable)];
    var disabled := unmasked + [Systemctl("disable", policy.disable)];
    var stopped := disabled + [Systemctl("stop", policy.disable)];
    var masked := stopped + [Systemctl("mask", policy.mask)];
    Adds(reload, "unmask", policy.enable);
    Adds(unmasked, "disable", policy.disable);
    Adds(disabled, "stop", policy.disable);
    Adds(stopped, "mask", policy.mask);
    Adds(masked, "stop", policy.mask);
    assert Stops(policy) == masked + [Systemctl("stop", policy.mask)];
  }

  lemma ReloadNeeded()
    ensures Needed([Systemctl("daemon-reload", [])]) == [Systemctl("daemon-reload", [])]
  {
    assert [Systemctl("daemon-reload", [])][1..] == [];
  }

  lemma {:induction false} NeededTogether(a: seq<Operation>, b: seq<Operation>)
    ensures Needed(a + b) == Needed(a) + Needed(b)
  {
    hide Needed, HasObject;
    if a == [] {
      assert a + b == b;
      NeededFirst([]);
    } else {
      assert (a + b)[1..] == a[1..] + b && (a + b)[0] == a[0];
      NeededTogether(a[1..], b);
      NeededFirst(a);
      NeededFirst(a + b);
    }
  }

  lemma NeededFirst(operations: seq<Operation>)
    ensures operations == [] ==> Needed(operations) == []
    ensures operations != [] ==>
      Needed(operations) == (if HasObject(operations[0]) then [operations[0]] else []) + Needed(operations[1..])
  {
  }

  lemma Adds(calls: seq<Operation>, verb: string, units: seq<string>)
    requires verb != "daemon-reload"
    ensures Needed(calls + [Systemctl(verb, units)]) == Needed(calls) + Call(verb, units)
  {
    NeededTogether(calls, [Systemctl(verb, units)]);
    assert [Systemctl(verb, units)][1..] == [];
  }

  lemma AddsWait(calls: seq<Operation>, paths: seq<string>)
    ensures Needed(calls + [AwaitSockets(paths)]) == Needed(calls) + if paths != [] then [AwaitSockets(paths)] else []
  {
    NeededTogether(calls, [AwaitSockets(paths)]);
    assert [AwaitSockets(paths)][1..] == [];
  }

  // ----- what the calls do to a unit --------------------------------------------------------------

  datatype Unit = Unit(enabled: bool, masked: bool, running: bool)

  function After(operation: Operation, name: string, unit: Unit): Unit {
    if operation.AwaitSockets? || name !in operation.units then unit
    else if operation.verb == "mask" then unit.(masked := true)
    else if operation.verb == "unmask" then unit.(masked := false)
    else if operation.verb == "enable" then unit.(enabled := true)
    else if operation.verb == "disable" then unit.(enabled := false)
    else if operation.verb == "restart" then unit.(running := true)
    else if operation.verb == "stop" then unit.(running := false)
    else unit
  }

  function AfterAll(operations: seq<Operation>, name: string, unit: Unit): Unit {
    if operations == [] then unit
    else After(operations[|operations| - 1], name, AfterAll(operations[..|operations| - 1], name, unit))
  }

  lemma AfterCall(earlier: seq<Operation>, verb: string, units: seq<string>, name: string, unit: Unit)
    ensures AfterAll(earlier + Call(verb, units), name, unit)
      == After(Systemctl(verb, units), name, AfterAll(earlier, name, unit))
  {
    if units == [] {
      assert earlier + Call(verb, units) == earlier;
    }
  }

  lemma AfterReload(name: string, unit: Unit)
    ensures AfterAll([Systemctl("daemon-reload", [])], name, unit) == unit
  {
    assert [Systemctl("daemon-reload", [])][..0] == [];
  }

  lemma AfterWait(earlier: seq<Operation>, paths: seq<string>, name: string, unit: Unit)
    ensures AfterAll(earlier + [AwaitSockets(paths)], name, unit) == AfterAll(earlier, name, unit)
  {
  }

  /** The policy of a profile holds after its operations: enabled units end unmasked, enabled and
      with a restart running, disabled units disabled, masked units masked, and with a restart
      both stopped; every other unit is as it was. */
  lemma PolicyHolds(policy: Policy, restart: bool, name: string, unit: Unit)
    requires forall u | u in policy.enable :: u !in policy.disable + policy.mask
    ensures var after := AfterAll(Operations(policy, restart), name, unit);
      && (name in policy.enable ==> after == Unit(true, false, restart || unit.running))
      && (name in policy.disable ==> !after.enabled)
      && (name in policy.mask ==> after.masked)
      && (name in policy.disable + policy.mask ==> after.running == (!restart && unit.running))
      && (name !in policy.enable + policy.disable + policy.mask ==> after == unit)
  {
    hide AfterAll;
    AfterReload(name, unit);
    var reload := [Systemctl("daemon-reload", [])];
    AfterCall(reload, "unmask", policy.enable, name, unit);
    var unmasked := reload + Call("unmask", policy.enable);
    AfterCall(unmasked, "disable", policy.disable, name, unit);
    var disabled := unmasked + Call("disable", policy.disable);
    if restart {
      AfterCall(disabled, "stop", policy.disable, name, unit);
      disabled := disabled + Call("stop", policy.disable);
    }
    AfterCall(disabled, "mask", policy.mask, name, unit);
    var masked := disabled + Call("mask", policy.mask);
    if restart {
      AfterCall(masked, "stop", policy.mask, name, unit);
      masked := masked + Call("stop", policy.mask);
    }
    AfterCall(masked, "enable", policy.enable, name, unit);
    var all := masked + Call("enable", policy.enable);
    if restart {
      AfterCall(all, "restart", policy.enable, name, unit);
      all := all + Call("restart", policy.enable);
      AfterCall(all, "stop", policy.disable + policy.mask, name, unit);
      all := all + Call("stop", policy.disable + policy.mask);
      AfterWait(all, policy.readySockets, name, unit);
    }
    assert Operations(policy, restart)
      == all + if restart && policy.readySockets != [] then [AwaitSockets(policy.readySockets)] else [];
    assert all + [] == all;
  }
}
