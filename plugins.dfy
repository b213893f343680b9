/**
 * `PluginManager` (src/core/PluginManager.ts): a name-keyed registry, kept in
 * installation order as the JavaScript `Map` is. Whether a plugin's `install`
 * or `uninstall` hook throws is an input of the call that runs it.
 */
module Plugins {
  import opened Wrappers

  /** `SSOPlugin`; the hooks themselves are outside the model, only whether a teardown exists. */
  datatype Plugin = Plugin(name: string, version: string, hasUninstall: bool)

  predicate DistinctNames(ps: seq<Plugin>)
  {
    forall i, j | 0 <= i < j < |ps| :: ps[i].name != ps[j].name
  }

  predicate HasName(ps: seq<Plugin>, name: string)
  {
    exists i | 0 <= i < |ps| :: ps[i].name == name
  }

  /** The position of `name`, or -1. */
  function IndexOfName(ps: seq<Plugin>, name: string): (i: int)
    ensures -1 <= i < |ps|
    ensures i >= 0 ==> ps[i].name == name && forall j | 0 <= j < i :: ps[j].name != name
    ensures i < 0 <==> !HasName(ps, name)
  {
    if ps == [] then -1
    else if ps[0].name == name then 0
    else
      var i := IndexOfName(ps[1..], name);
      if i < 0 then -1 else i + 1
  }

  function RemoveName(ps: seq<Plugin>, name: string): seq<Plugin>
  {
    var i := IndexOfName(ps, name);
    if i < 0 then ps else ps[..i] + ps[i + 1..]
  }

  /** A teardown that throws keeps its plugin registered. */
  predicate TeardownFails(p: Plugin, teardownThrows: string -> bool)
  {
    p.hasUninstall && teardownThrows(p.name)
  }

  /** The plugins `clear` leaves behind, in order. */
  function Survivors(ps: seq<Plugin>, teardownThrows: string -> bool): seq<Plugin>
  {
    if ps == [] then []
    else
      var last := ps[|ps| - 1];
      Survivors(ps[..|ps| - 1], teardownThrows) + (if TeardownFails(last, teardownThrows) then [last] else [])
  }

  lemma {:induction false} SurvivorsMembers(ps: seq<Plugin>, teardownThrows: string -> bool)
    ensures forall p :: p in Survivors(ps, teardownThrows) <==> p in ps && TeardownFails(p, teardownThrows)
    ensures |Survivors(ps, teardownThrows)| <= |ps|
  {
    if ps != [] {
      SurvivorsMembers(ps[..|ps| - 1], teardownThrows);
      assert ps == ps[..|ps| - 1] + [ps[|ps| - 1]];
    }
  }

  lemma SurvivorsKeep(ps: seq<Plugin>, teardownThrows: string -> bool, p: Plugin)
    requires p in Survivors(ps, teardownThrows)
    ensures p in ps && TeardownFails(p, teardownThrows)
  {
    SurvivorsMembers(ps, teardownThrows);
  }

  /** Removing the plugin that sits between two parts, the first without its name. */
  lemma RemoveNameAt(s: seq<Plugin>, x: Plugin, r: seq<Plugin>)
    requires !HasName(s, x.name)
    ensures IndexOfName(s + [x] + r, x.name) == |s|
    ensures RemoveName(s + [x] + r, x.name) == s + r
  {
    var ps := s + [x] + r;
    assert ps[|s|] == x;
    forall j | 0 <= j < |s| ensures ps[j].name != x.name {
      assert ps[j] == s[j];
    }
    var i := IndexOfName(ps, x.name);
    assert i == |s|;
    assert ps[..i] == s;
    assert ps[i + 1..] == r;
  }

  /** With distinct names, no survivor of the first `i` names carries the i-th name. */
  lemma SurvivorsLack(names: seq<Plugin>, i: nat, teardownThrows: string -> bool)
    requires DistinctNames(names) && i < |names|
    ensures !HasName(Survivors(names[..i], teardownThrows), names[i].name)
  {
    var s := Survivors(names[..i], teardownThrows);
    forall j | 0 <= j < |s| ensures s[j].name != names[i].name {
      assert s[j] in s;
      SurvivorsKeep(names[..i], teardownThrows, s[j]);
      var k :| 0 <= k < i && names[..i][k] == s[j];
      assert names[k] == s[j];
    }
  }

  /** The survivors of one more name: that name is added when its teardown throws. */
  lemma SurvivorsSnoc(names: seq<Plugin>, i: nat, teardownThrows: string -> bool)
    requires i < |names|
    ensures Survivors(names[..i + 1], teardownThrows)
            == Survivors(names[..i], teardownThrows) + (if TeardownFails(names[i], teardownThrows) then [names[i]] else [])
  {
    assert names[..i + 1][..i] == names[..i];
  }

  /** The i-th name sits right after the survivors of the names before it. */
  lemma ClearLocate(names: seq<Plugin>, i: nat, teardownThrows: string -> bool, before: seq<Plugin>)
    requires DistinctNames(names) && i < |names|
    requires before == Survivors(names[..i], teardownThrows) + names[i..]
    ensures IndexOfName(before, names[i].name) == |Survivors(names[..i], teardownThrows)|
    ensures before[|Survivors(names[..i], teardownThrows)|] == names[i]
  {
    var p := names[i];
    var s := Survivors(names[..i], teardownThrows);
    assert names[i..] == [p] + names[i + 1..];
    SurvivorsLack(names, i, teardownThrows);
    RemoveNameAt(s, p, names[i + 1..]);
    assert before == s + [p] + names[i + 1..];
  }

  /**
   * One step of `clear`: with the survivors of the first `i` names in front of
   * the names not yet visited, the i-th name is found right after them, and
   * removing it or keeping it (as its teardown decides) extends the survivors
   * by one name.
   */
  lemma ClearStep(names: seq<Plugin>, i: nat, teardownThrows: string -> bool,
                  before: seq<Plugin>, after: seq<Plugin>, removed: bool)
    requires DistinctNames(names) && i < |names|
    requires before == Survivors(names[..i], teardownThrows) + names[i..]
    requires removed <==> !TeardownFails(names[i], teardownThrows)
    requires removed ==> after == RemoveName(before, names[i].name)
    requires !removed ==> after == before
    ensures after == Survivors(names[..i + 1], teardownThrows) + names[i + 1..]
  {
    var p := names[i];
    var s := Survivors(names[..i], teardownThrows);
    var rest := names[i + 1..];
    SurvivorsSnoc(names, i, teardownThrows);
    assert before == s + [p] + rest by {
      assert names[i..] == [p] + rest;
    }
    if removed {
      SurvivorsLack(names, i, teardownThrows);
      RemoveNameAt(s, p, rest);
    }
  }

  // ---------------------------------------------------------------------------
  // The registry object

  class PluginManager {
    var plugins: seq<Plugin>

    ghost predicate Valid()
      reads this
    {
      DistinctNames(plugins)
    }

    constructor()
      ensures Valid() && plugins == []
    {
      plugins := [];
    }

    /**
     * `install(plugin)`: an already installed name is a no-op (the hook is not
     * run); otherwise the plugin is registered, at the end, only if its hook
     * returns normally.
     */
    method Install(plugin: Plugin, hookThrows: bool)
      requires Valid()
      modifies this
      ensures Valid()
      ensures old(IsInstalled(plugin.name)) || hookThrows ==> plugins == old(plugins)
      ensures !old(IsInstalled(plugin.name)) && !hookThrows ==> plugins == old(plugins) + [plugin]
      ensures IsInstalled(plugin.name) <==> old(IsInstalled(plugin.name)) || !hookThrows
    {
      if IndexOfName(plugins, plugin.name) >= 0 {
        return;
      }
      if !hookThrows {
        plugins := plugins + [plugin];
        assert plugins[|plugins| - 1].name == plugin.name;
      }
    }

    /**
     * `uninstall(name)`: false and no change for an unknown name or a throwing
     * teardown; otherwise the entry is removed and the result is true.
     */
    method Uninstall(name: string, teardownThrows: bool) returns (removed: bool)
      requires Valid()
      modifies this
      ensures Valid()
      ensures removed <==> old(IsInstalled(name)) && !(old(GetPlugin(name)).value.hasUninstall && teardownThrows)
      ensures removed ==> plugins == RemoveName(old(plugins), name) && !IsInstalled(name)
      ensures !removed ==> plugins == old(plugins)
    {
      var i := IndexOfName(plugins, name);
      if i < 0 {
        return false;
      }
      var plugin := plugins[i];
      if plugin.hasUninstall && teardownThrows {
        return false;
      }
      plugins := plugins[..i] + plugins[i + 1..];
      assert !HasName(plugins, name) by {
        forall j | 0 <= j < |plugins| ensures plugins[j].name != name {
          if j < i {
            assert plugins[j] == old(plugins)[j];
          } else {
            assert plugins[j] == old(plugins)[j + 1];
          }
        }
      }
      return true;
    }

    /** `getInstalledPlugins`: the registered plugins in installation order. */
    function GetInstalledPlugins(): (r: seq<Plugin>)
      reads this
      requires Valid()
      ensures DistinctNames(r)
      ensures forall name :: HasName(r, name) <==> IsInstalled(name)
    {
      plugins
    }

    /** `isInstalled(name)`. */
    predicate IsInstalled(name: string)
      reads this
    {
      HasName(plugins, name)
    }

    /** `getPlugin(name)`: defined exactly for installed names, and then the plugin of that name. */
    function GetPlugin(name: string): (r: Option<Plugin>)
      reads this
      ensures r.Some? <==> IsInstalled(name)
      ensures r.Some? ==> r.value.name == name && r.value in plugins
    {
      var i := IndexOfName(plugins, name);
      if i < 0 then None else Some(plugins[i])
    }

    /**
     * `clear()`: `uninstall` for every registered name in order; afterwards only
     * the plugins whose teardown threw are left, in their order.
     */
    method Clear(teardownThrows: string -> bool)
      requires Valid()
      modifies this
      ensures Valid()
      ensures plugins == Survivors(old(plugins), teardownThrows)
    {
      var names := plugins;
      var i := 0;
      while i < |names|
        invariant 0 <= i <= |names|
        invariant DistinctNames(names)
        invariant Valid()
        invariant plugins == Survivors(names[..i], teardownThrows) + names[i..]
      {
        var p := names[i];
        ghost var before := plugins;
        ClearLocate(names, i, teardownThrows, before);
        assert GetPlugin(p.name) == Some(p);
        var removed := Uninstall(p.name, teardownThrows(p.name));
        ClearStep(names, i, teardownThrows, before, plugins, removed);
        i := i + 1;
      }
      assert names[..i] == names;
    }
  }

  /** After `clear`, every plugin left is one whose teardown threw, and none is new. */
  lemma ClearLeavesFailures(ps: seq<Plugin>, teardownThrows: string -> bool)
    ensures forall p | p in Survivors(ps, teardownThrows) :: p in ps && p.hasUninstall && teardownThrows(p.name)
    ensures forall p | p in ps && !(p.hasUninstall && teardownThrows(p.name)) :: p !in Survivors(ps, teardownThrows)
  {
    SurvivorsMembers(ps, teardownThrows);
  }
}
